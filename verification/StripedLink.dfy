/**
  Two queue pairs between a sender and a receiver (comm/src/rdma_transport.h,
  comm/src/rdma_van.h).  A send posts all its work at once; each queue pair
  completes its work in order, at its own pace; a message is handed up when its
  notification is next and enough slave chunks have been counted.
 */
module StripedLink {
  import opened Prelude
  import opened Striping

  // A message as sent: slaveNum is 0 when it is not striped, and counter is the
  // value of slave_qp_counter[1].
  datatype Sent<T> = Sent(payload: seq<T>, first: nat, slaveNum: nat, counter: nat)

  function WriteAt<T>(mem: seq<Option<T>>, offset: nat, data: seq<T>): (r: seq<Option<T>>)
    requires offset + |data| <= |mem|
    ensures |r| == |mem|
    ensures forall p :: 0 <= p < |mem| ==>
      r[p] == if offset <= p < offset + |data| then Some(data[p - offset]) else mem[p]
  {
    seq(|mem|, p requires 0 <= p < |mem| => if offset <= p < offset + |data| then Some(data[p - offset]) else mem[p])
  }

  // Has byte p of message id landed, when `done0` pieces of work have completed on
  // queue pair 0 (two per message) and `done1` on queue pair 1?
  ghost predicate Landed<T>(m: Sent<T>, id: nat, p: nat, done0: nat, done1: nat) {
    if p < m.first then done0 > 2 * id else done1 >= m.counter
  }

  ghost predicate MemoryOk<T>(m: Sent<T>, id: nat, mem: seq<Option<T>>, done0: nat, done1: nat) {
    && |mem| == |m.payload|
    && forall p :: 0 <= p < |mem| ==> mem[p] == if Landed(m, id, p, done0, done1) then Some(m.payload[p]) else None
  }

  // A message that is not striped has no second part; the striped ones are
  // numbered from 1 in the order of queue pair 1.
  ghost predicate SentOk<T>(m: Sent<T>, id: nat, posted1: seq<nat>) {
    && m.first <= |m.payload|
    && (m.slaveNum == 0 ==> m.first == |m.payload|)
    && (m.slaveNum != 0 ==> 1 <= m.counter <= |posted1| && posted1[m.counter - 1] == id)
  }

  ghost predicate PostedOk<T>(sent: seq<Sent<T>>, posted1: seq<nat>, j: nat)
    requires j < |posted1|
  {
    posted1[j] < |sent| && sent[posted1[j]].slaveNum != 0 && sent[posted1[j]].counter == j + 1
  }

  datatype Event<T> = Send(payload: seq<T>, striped: bool) | Complete0 | Complete1 | RecvMsg

  class Link<T> {
    var sent: seq<Sent<T>>
    var pktCount: nat                 // the sender's qp_pkt_count[1]
    var posted1: seq<nat>             // messages with a chunk on queue pair 1
    var done0: nat                    // work completed on queue pair 0
    var slaveCount: nat               // the receiver's qp_pkt_count[1]
    var memory: seq<seq<Option<T>>>   // the receive buffer of each message
    var notified: seq<nat>            // recv_buffers_
    var up: seq<seq<Option<T>>>       // handed up, in order

    ghost predicate Valid()
      reads this
    {
      && |memory| == |sent| && done0 <= 2 * |sent| && pktCount == |posted1| && slaveCount <= |posted1|
      && (forall id :: 0 <= id < |sent| ==> SentOk(sent[id], id, posted1))
      && (forall j :: 0 <= j < |posted1| ==> PostedOk(sent, posted1, j))
      && (forall id :: 0 <= id < |sent| ==> MemoryOk(sent[id], id, memory[id], done0, slaveCount))
      && |up| + |notified| == done0 / 2
      && (forall i :: 0 <= i < |notified| ==> notified[i] == |up| + i)
      && (forall i :: 0 <= i < |up| ==> Complete(sent[i].payload, up[i]))
    }

    constructor ()
      ensures Valid() && sent == [] && up == []
    {
      sent, pktCount, posted1, done0, slaveCount, memory, notified, up := [], 0, [], 0, 0, [], [], [];
    }

    // SendPushRequest and SendPullResponse: data and meta on queue pair 0, and the
    // rest of a striped message on queue pair 1.
    method Send(payload: seq<T>, striped: bool)
      requires Valid()
      modifies this
      ensures Valid() && |sent| == |old(sent)| + 1 && sent[..|old(sent)|] == old(sent)
      ensures sent[|old(sent)|].payload == payload && up == old(up)
    {
      var m := Sent(payload, |payload|, 0, 0);
      ghost var before := posted1;
      if striped {
        var chunks := Stripe(|payload|, 2);
        pktCount := pktCount + 1;
        m := Sent(payload, chunks[0].length, 1, pktCount);
        posted1 := posted1 + [|sent|];
      }
      SendKeeps(sent, before, m, posted1, memory, done0, slaveCount);
      sent := sent + [m];
      memory := memory + [seq(|payload|, _ => None)];
    }

    // The data of a message lands, or its meta: the receiver is notified.
    method Complete0()
      requires Valid() && done0 < 2 * |sent|
      modifies this
      ensures Valid() && done0 == old(done0) + 1 && sent == old(sent) && up == old(up)
    {
      var id := done0 / 2;
      if done0 % 2 == 0 {
        ghost var before := memory;
        memory := memory[id := WriteAt(memory[id], 0, sent[id].payload[..sent[id].first])];
        forall i | 0 <= i < |sent| ensures MemoryOk(sent[i], i, memory[i], done0 + 1, slaveCount) {
          assert MemoryOk(sent[i], i, before[i], done0, slaveCount);
        }
      } else {
        notified := notified + [id];
        forall i | 0 <= i < |sent| ensures MemoryOk(sent[i], i, memory[i], done0 + 1, slaveCount) {
          assert MemoryOk(sent[i], i, memory[i], done0, slaveCount);
        }
      }
      done0 := done0 + 1;
    }

    // A slave chunk lands and is counted.
    method Complete1()
      requires Valid() && slaveCount < |posted1|
      modifies this
      ensures Valid() && slaveCount == old(slaveCount) + 1 && sent == old(sent) && up == old(up)
    {
      var id := posted1[slaveCount];
      assert PostedOk(sent, posted1, slaveCount) && SentOk(sent[id], id, posted1);
      ghost var before := memory;
      memory := memory[id := WriteAt(memory[id], sent[id].first, sent[id].payload[sent[id].first..])];
      forall i | 0 <= i < |sent| ensures MemoryOk(sent[i], i, memory[i], done0, slaveCount + 1) {
        assert MemoryOk(sent[i], i, before[i], done0, slaveCount) && SentOk(sent[i], i, posted1);
        if i != id { OtherCounter(sent, posted1, i, slaveCount); }
      }
      slaveCount := slaveCount + 1;
    }

    // Hands up the next message once its slave chunks have been counted.
    method RecvMsg() returns (done: bool)
      requires Valid()
      modifies this`notified, this`up
      ensures Valid()
      ensures done <==> old(notified) != [] && (sent[|old(up)|].slaveNum == 0 || sent[|old(up)|].counter <= slaveCount)
      ensures if done then |up| == |old(up)| + 1 && up[..|old(up)|] == old(up) else up == old(up)
    {
      if notified == [] { return false; }
      var id := notified[0];
      var m := sent[id];
      if m.slaveNum > 0 && !(m.counter <= slaveCount) { return false; }
      assert MemoryOk(m, id, memory[id], done0, slaveCount) && SentOk(m, id, posted1);
      notified, up := notified[1..], up + [memory[id]];
      return true;
    }

    // In every run, what has been handed up is what was sent, in order and complete.
    method Run(events: seq<Event<T>>)
      requires Valid()
      modifies this
      ensures Valid() && |up| <= |sent| && forall i :: 0 <= i < |up| ==> Complete(sent[i].payload, up[i])
    {
      for i := 0 to |events|
        invariant Valid()
      {
        match events[i]
        case Send(payload, striped) => Send(payload, striped);
        case Complete0 => if done0 < 2 * |sent| { Complete0(); }
        case Complete1 => if slaveCount < |posted1| { Complete1(); }
        case RecvMsg => var _ := RecvMsg();
      }
    }
  }

  // Every byte of the payload is there.
  ghost predicate Complete<T>(payload: seq<T>, mem: seq<Option<T>>) {
    |mem| == |payload| && forall p :: 0 <= p < |payload| ==> mem[p] == Some(payload[p])
  }

  lemma OtherCounter<T>(sent: seq<Sent<T>>, posted1: seq<nat>, i: nat, j: nat)
    requires i < |sent| && j < |posted1| && SentOk(sent[i], i, posted1) && PostedOk(sent, posted1, j) && posted1[j] != i
    ensures sent[i].slaveNum != 0 ==> sent[i].counter != j + 1
  {
  }

  lemma SendKeeps<T>(
      sent: seq<Sent<T>>, posted1: seq<nat>, m: Sent<T>, posted1': seq<nat>, memory: seq<seq<Option<T>>>,
      done0: nat, done1: nat)
    requires |memory| == |sent| && done0 <= 2 * |sent| && done1 <= |posted1|
    requires posted1' == posted1 || (posted1' == posted1 + [|sent|] && m.counter == |posted1'|)
    requires m.first <= |m.payload| && (m.slaveNum == 0 ==> m.first == |m.payload|)
    requires (m.slaveNum != 0 <==> posted1' != posted1)
    requires forall id :: 0 <= id < |sent| ==> SentOk(sent[id], id, posted1)
    requires forall j :: 0 <= j < |posted1| ==> PostedOk(sent, posted1, j)
    ensures forall id :: 0 <= id < |sent| + 1 ==> SentOk((sent + [m])[id], id, posted1')
    ensures forall j :: 0 <= j < |posted1'| ==> PostedOk(sent + [m], posted1', j)
    ensures MemoryOk(m, |sent|, seq(|m.payload|, _ => None), done0, done1)
  {
    forall j | 0 <= j < |posted1'| ensures PostedOk(sent + [m], posted1', j) {
      if j < |posted1| { assert PostedOk(sent, posted1, j); }
    }
  }
}
