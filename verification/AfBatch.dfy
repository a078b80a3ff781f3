/**
  The attention/FFN batch protocol (comm/include/ps/af_tensor_app.h): how a
  worker cuts a push/pull request into messages, and how a server puts the
  messages of interleaved batches together again.
 */
module AfBatch {
  import opened Prelude

  // meta.head: 0, AF_FLAG_BATCH_START, AF_FLAG_BATCH_MIDDLE, AF_FLAG_BATCH_END
  datatype Cmd = Single | Start | Middle | End

  datatype KeyTensor<T> = KeyTensor(key: nat, val: T)

  datatype Msg<T> = Msg(sender: int, ts: int, cmd: Cmd, push: bool, tensor: KeyTensor<T>)

  // ---------------------------------------------------------------- worker

  // A request as the pushpull thread finds it in its queue.
  datatype Request<T> = Request(push: seq<KeyTensor<T>>, pull: seq<KeyTensor<T>>, pushTs: seq<int>, pullTs: seq<int>)

  // One timestamp per push and per pull of a server's share.
  predicate Stamped<T>(r: Request<T>, servers: nat) {
    servers > 0 && |r.pushTs| == |r.push| && |r.pullTs| == |r.pull| / servers
  }

  // The flag of the j-th message of a request with p pushes, l pulls and q
  // pulls per server.
  function CmdAt(j: nat, p: nat, l: nat, q: nat): Cmd {
    if p + l == 1 then Single
    else if j < p then
      if j == 0 then Start else if l == 0 && j == p - 1 then End else Middle
    else if p == 0 && j == 0 then Start
    else if j - p == q - 1 then End
    else Middle
  }

  // Server i's tensor for the k-th pull.
  function PullAt<T>(r: Request<T>, servers: nat, i: nat, k: nat): KeyTensor<T>
    requires Stamped(r, servers) && i < servers && k < |r.pull| / servers
  {
    PullIndex(|r.pull|, servers, i, k);
    r.pull[i * (|r.pull| / servers) + k]
  }

  lemma PullIndex(l: nat, servers: nat, i: nat, k: nat)
    requires i < servers && k < l / servers
    ensures 0 <= i * (l / servers) + k < l
  {
    var q := l / servers;
    assert i * q + q == (i + 1) * q;
    if i + 1 < servers {
      assert servers * q == (i + 1) * q + (servers - i - 1) * q;
      TimesAtLeast(servers - i - 1, q);
    }
  }

  // What server i receives for a request, in order.
  function Messages<T>(r: Request<T>, sender: int, servers: nat, i: nat): seq<Msg<T>>
    requires Stamped(r, servers) && i < servers
  {
    var p, q := |r.push|, |r.pullTs|;
    seq(p + q, j requires 0 <= j < p + q =>
      var cmd := CmdAt(j, p, |r.pull|, q);
      if j < p then Msg(sender, r.pushTs[j], cmd, true, r.push[j])
      else Msg(sender, r.pullTs[j - p], cmd, false, PullAt(r, servers, i, j - p)))
  }

  // ---------------------------------------------------------------- who pulls what

  // The tensors of the pushes, or of the pulls, among the messages.
  function TensorsOf<T>(ms: seq<Msg<T>>, push: bool): seq<KeyTensor<T>> {
    if ms == [] then []
    else
      var n := |ms| - 1;
      TensorsOf(ms[..n], push) + if ms[n].push == push then [ms[n].tensor] else []
  }

  // What the servers are asked for, one server after the other.
  function AllPulled<T>(out: seq<seq<Msg<T>>>): seq<KeyTensor<T>> {
    if out == [] then [] else AllPulled(out[..|out| - 1]) + TensorsOf(out[|out| - 1], false)
  }

  // Server i's part of the pull list.
  function ShareOf<T>(pull: seq<KeyTensor<T>>, servers: nat, i: nat): (r: seq<KeyTensor<T>>)
    requires i < servers
    ensures |r| == |pull| / servers
  {
    var q := |pull| / servers;
    ShareBounds(|pull|, servers, i);
    pull[i * q..(i + 1) * q]
  }

  lemma ShareBounds(l: nat, servers: nat, i: nat)
    requires i < servers
    ensures 0 <= i * (l / servers) <= (i + 1) * (l / servers) == i * (l / servers) + l / servers <= l
  {
    var q := l / servers;
    if q > 0 { PullIndex(l, servers, i, q - 1); } else { assert i * q == 0 && (i + 1) * q == 0; }
  }

  lemma PullIsShare<T>(r: Request<T>, servers: nat, i: nat, k: nat)
    requires Stamped(r, servers) && i < servers && k < |r.pull| / servers
    ensures PullAt(r, servers, i, k) == ShareOf(r.pull, servers, i)[k]
  {
    ShareBounds(|r.pull|, servers, i);
    PullIndex(|r.pull|, servers, i, k);
  }

  // A server's messages carry all pushes, and its own part of the pulls.
  lemma {:induction false} MessagesCarry<T>(r: Request<T>, sender: int, servers: nat, i: nat, n: nat)
    requires Stamped(r, servers) && i < servers && n <= |r.push| + |r.pullTs|
    ensures var ms, p := Messages(r, sender, servers, i), |r.push|;
      && TensorsOf(ms[..n], true) == r.push[..if n < p then n else p]
      && TensorsOf(ms[..n], false) == ShareOf(r.pull, servers, i)[..if n < p then 0 else n - p]
  {
    if n > 0 {
      var ms, p, k := Messages(r, sender, servers, i), |r.push|, n - 1;
      MessagesCarry(r, sender, servers, i, k);
      assert ms[..n][..k] == ms[..k] && ms[..n][k] == ms[k];
      if k >= p {
        var share := ShareOf(r.pull, servers, i);
        PullIsShare(r, servers, i, k - p);
        assert ms[k].tensor == PullAt(r, servers, i, k - p);
        assert share[..n - p] == share[..k - p] + [share[k - p]];
      }
    }
  }

  lemma MessagesCarryAll<T>(r: Request<T>, sender: int, servers: nat, i: nat)
    requires Stamped(r, servers) && i < servers
    ensures TensorsOf(Messages(r, sender, servers, i), true) == r.push
    ensures TensorsOf(Messages(r, sender, servers, i), false) == ShareOf(r.pull, servers, i)
  {
    var ms := Messages(r, sender, servers, i);
    MessagesCarry(r, sender, servers, i, |ms|);
    assert ms[..|ms|] == ms;
  }

  // The pulls of the first n servers.
  function FirstShares<T>(pull: seq<KeyTensor<T>>, servers: nat, n: nat): (r: seq<KeyTensor<T>>)
    requires 0 < servers && n <= servers
    ensures 0 <= n * (|pull| / servers) <= |pull| && r == pull[..n * (|pull| / servers)]
  {
    if n > 0 then
      ShareBounds(|pull|, servers, n - 1);
      pull[..n * (|pull| / servers)]
    else []
  }

  // The next part continues the list.
  lemma ShareNext<T>(pull: seq<KeyTensor<T>>, servers: nat, i: nat)
    requires i < servers
    ensures FirstShares(pull, servers, i) + ShareOf(pull, servers, i) == FirstShares(pull, servers, i + 1)
  {
    ShareBounds(|pull|, servers, i);
  }

  // The parts, one after the other, are the pull list up to the last whole share.
  lemma {:induction false} SharesJoin<T>(pull: seq<KeyTensor<T>>, servers: nat, parts: seq<seq<KeyTensor<T>>>)
    requires 0 < servers && |parts| <= servers
    requires forall i :: 0 <= i < |parts| ==> parts[i] == ShareOf(pull, servers, i)
    ensures Concat(parts) == FirstShares(pull, servers, |parts|)
  {
    if parts != [] {
      var n := |parts| - 1;
      SharesJoin(pull, servers, parts[..n]);
      ShareNext(pull, servers, n);
    }
  }

  lemma {:induction false} PulledConcat<T>(out: seq<seq<Msg<T>>>, parts: seq<seq<KeyTensor<T>>>)
    requires |parts| == |out| && forall i :: 0 <= i < |out| ==> parts[i] == TensorsOf(out[i], false)
    ensures AllPulled(out) == Concat(parts)
  {
    if out != [] {
      var n := |out| - 1;
      PulledConcat(out[..n], parts[..n]);
    }
  }

  // Every pull goes to one server, in order, but for a remainder that fills no share.
  lemma PulledOnce<T>(r: Request<T>, sender: int, servers: nat, out: seq<seq<Msg<T>>>)
    requires Stamped(r, servers) && |out| == servers
    requires forall i :: 0 <= i < servers ==> out[i] == Messages(r, sender, servers, i)
    ensures servers * (|r.pull| / servers) <= |r.pull|
    ensures AllPulled(out) == r.pull[..servers * (|r.pull| / servers)]
    ensures forall i :: 0 <= i < servers ==> TensorsOf(out[i], true) == r.push
  {
    var parts := seq(servers, i requires 0 <= i < servers => ShareOf(r.pull, servers, i));
    forall i | 0 <= i < servers
      ensures TensorsOf(out[i], true) == r.push && TensorsOf(out[i], false) == parts[i]
    {
      MessagesCarryAll(r, sender, servers, i);
    }
    SharesJoin(r.pull, servers, parts);
    PulledConcat(out, parts);
  }

  // ZPush_: the same message to every server.
  method Broadcast<T>(out: seq<seq<Msg<T>>>, m: Msg<T>) returns (res: seq<seq<Msg<T>>>)
    ensures |res| == |out| && forall i :: 0 <= i < |out| ==> res[i] == out[i] + [m]
  {
    res := out;
    for i := 0 to |out|
      invariant |res| == |out|
      invariant forall j :: 0 <= j < |out| ==> res[j] == if j < i then out[j] + [m] else out[j]
    {
      res := res[i := res[i] + [m]];
    }
  }

  // ZPull_: the k-th pull of each server's share.
  method SendPulls<T>(out: seq<seq<Msg<T>>>, r: Request<T>, sender: int, servers: nat, k: nat, cmd: Cmd)
    returns (res: seq<seq<Msg<T>>>)
    requires Stamped(r, servers) && |out| == servers && k < |r.pullTs|
    ensures |res| == servers
    ensures forall i :: 0 <= i < servers ==>
      res[i] == out[i] + [Msg(sender, r.pullTs[k], cmd, false, PullAt(r, servers, i, k))]
  {
    res := out;
    for i := 0 to servers
      invariant |res| == servers
      invariant forall j :: 0 <= j < servers ==>
        res[j] == if j < i then out[j] + [Msg(sender, r.pullTs[k], cmd, false, PullAt(r, servers, j, k))] else out[j]
    {
      res := res[i := res[i] + [Msg(sender, r.pullTs[k], cmd, false, PullAt(r, servers, i, k))]];
    }
  }

  // ZBatchPushPull_: the messages put on the wire to each server.
  method SendBatch<T>(r: Request<T>, sender: int, servers: nat) returns (out: seq<seq<Msg<T>>>)
    requires Stamped(r, servers) && |r.push| + |r.pull| >= 1
    // a single pull is only stamped when there is one server
    requires |r.push| + |r.pull| == 1 ==> |r.pushTs| + |r.pullTs| == 1
    ensures |out| == servers
    ensures forall i :: 0 <= i < servers ==> out[i] == Messages(r, sender, servers, i)
    ensures servers * (|r.pull| / servers) <= |r.pull|
    ensures AllPulled(out) == r.pull[..servers * (|r.pull| / servers)]
    ensures forall i :: 0 <= i < servers ==> TensorsOf(out[i], true) == r.push
  {
    out := Emit(r, sender, servers);
    PulledOnce(r, sender, servers, out);
  }

  method Emit<T>(r: Request<T>, sender: int, servers: nat) returns (out: seq<seq<Msg<T>>>)
    requires Stamped(r, servers) && |r.push| + |r.pull| >= 1
    requires |r.push| + |r.pull| == 1 ==> |r.pushTs| + |r.pullTs| == 1
    ensures |out| == servers
    ensures forall i :: 0 <= i < servers ==> out[i] == Messages(r, sender, servers, i)
  {
    out := seq(servers, _ => []);
    if |r.push| + |r.pull| == 1 {
      if |r.push| == 1 {
        out := Broadcast(out, Msg(sender, r.pushTs[0], Single, true, r.push[0]));
      } else {
        out := SendPulls(out, r, sender, servers, 0, Single);
      }
      return;
    }
    var first := true;
    for k := 0 to |r.push|
      invariant |out| == servers && first == (k == 0)
      invariant forall i :: 0 <= i < servers ==> out[i] == Messages(r, sender, servers, i)[..k]
    {
      var cmd := Middle;
      if k == 0 {
        cmd, first := Start, false;
      } else if r.pull == [] && k == |r.push| - 1 {
        cmd := End;
      }
      out := Broadcast(out, Msg(sender, r.pushTs[k], cmd, true, r.push[k]));
    }
    var q := |r.pull| / servers;
    for k := 0 to q
      invariant |out| == servers
      invariant forall i :: 0 <= i < servers ==> out[i] == Messages(r, sender, servers, i)[..|r.push| + k]
    {
      var cmd := if first && k == 0 then Start else if k == q - 1 then End else Middle;
      out := SendPulls(out, r, sender, servers, k, cmd);
    }
  }

  // The flags a server can reassemble: one single message, or START, then
  // MIDDLEs, then END.
  predicate WellFlagged<T>(ms: seq<Msg<T>>) {
    if |ms| == 1 then ms[0].cmd == Single
    else
      && |ms| >= 2 && ms[0].cmd == Start && ms[|ms| - 1].cmd == End
      && forall j :: 0 < j < |ms| - 1 ==> ms[j].cmd == Middle
  }

  // Exactly the requests whose messages a server can reassemble.
  predicate Deliverable(p: nat, l: nat, servers: nat)
    requires servers > 0
  {
    || (p + l == 1 && p + l / servers == 1)
    || (l == 0 && p >= 2)
    || (l / servers >= 1 && p + l / servers >= 2)
  }

  lemma FlagsOfRequest<T>(r: Request<T>, sender: int, servers: nat, i: nat)
    requires Stamped(r, servers) && i < servers
    ensures WellFlagged(Messages(r, sender, servers, i)) <==> Deliverable(|r.push|, |r.pull|, servers)
  {
    var ms := Messages(r, sender, servers, i);
    var p, l, q := |r.push|, |r.pull|, |r.pullTs|;
    assert forall j :: 0 <= j < |ms| ==> ms[j].cmd == CmdAt(j, p, l, q);
    if |ms| >= 2 { assert ms[0].cmd == CmdAt(0, p, l, q) && ms[|ms| - 1].cmd == CmdAt(|ms| - 1, p, l, q); }
    if |ms| == 1 { assert ms[0].cmd == CmdAt(0, p, l, q); }
    assert l == 0 ==> q == 0;
  }

  // ---------------------------------------------------------------- server

  // AFTensorMeta: the part of a batch that has arrived.
  datatype Meta<T> = Meta(sender: int, single: bool, lastTs: int, push: seq<Msg<T>>, pull: seq<Msg<T>>) {
    function Add(m: Msg<T>): Meta<T> {
      if m.push then this.(lastTs := m.ts, push := push + [m])
      else this.(lastTs := m.ts, pull := pull + [m])
    }
  }

  function NewMeta<T>(sender: int, single: bool): Meta<T> {
    Meta(sender, single, 0, [], [])
  }

  // What KVHandler works on: the open batch of each sender, the batches pushed
  // aside, the batches given to the request handler, and the pushes answered.
  datatype State<T> = State(
    current: map<int, Meta<T>>, reorder: seq<Meta<T>>, handled: seq<Meta<T>>, acked: seq<Msg<T>>)

  predicate Awaits<T>(a: Meta<T>, m: Msg<T>) {
    a.sender == m.sender && m.ts == a.lastTs + 1
  }

  // The first batch set aside that waits for this message.
  function FirstAwaiting<T>(reorder: seq<Meta<T>>, m: Msg<T>): (i: nat)
    ensures i <= |reorder|
    ensures i < |reorder| ==> Awaits(reorder[i], m)
    ensures forall j :: 0 <= j < i ==> !Awaits(reorder[j], m)
  {
    if reorder == [] then 0
    else if Awaits(reorder[0], m) then 0
    else
      var i := FirstAwaiting(reorder[1..], m);
      assert forall j :: 1 <= j < i + 1 ==> reorder[j] == reorder[1..][j - 1];
      1 + i
  }

  // One message; None when the code would follow a null batch.
  function Handle<T>(s: State<T>, m: Msg<T>): Option<State<T>> {
    if m.cmd == Single then
      Some(s.(handled := s.handled + [NewMeta(m.sender, true).Add(m)]))
    else
      var s1 := if m.push then s.(acked := s.acked + [m]) else s;
      if m.cmd == Start then
        var aside := if m.sender in s.current then s.reorder + [s.current[m.sender]] else s.reorder;
        Some(s1.(current := s.current[m.sender := NewMeta(m.sender, false).Add(m)], reorder := aside))
      else
        var i := FirstAwaiting(s.reorder, m);
        if i < |s.reorder| then
          var a := s.reorder[i].Add(m);
          if m.cmd == End then
            Some(s1.(handled := s.handled + [a], reorder := s.reorder[..i] + s.reorder[i + 1..]))
          else Some(s1.(reorder := s.reorder[i := a]))
        else if m.sender in s.current then
          var a := s.current[m.sender].Add(m);
          if m.cmd == End then Some(s1.(handled := s.handled + [a], current := s.current - {m.sender}))
          else Some(s1.(current := s.current[m.sender := a]))
        else None
  }

  class AFTensorServer<T> {
    // a sender without entry stands for a null pointer
    var batchData: map<int, Meta<T>>
    var reorderBuffer: seq<Meta<T>>
    var handled: seq<Meta<T>>
    var acked: seq<Msg<T>>

    ghost function S(): State<T>
      reads this
    {
      State(batchData, reorderBuffer, handled, acked)
    }

    constructor ()
      ensures S() == State(map[], [], [], [])
    {
      batchData, reorderBuffer, handled, acked := map[], [], [], [];
    }

    // The search through the reorder buffer.
    method FindAwaiting(m: Msg<T>) returns (isReorder: bool, at: nat)
      ensures at == FirstAwaiting(reorderBuffer, m) && (isReorder <==> at < |reorderBuffer|)
    {
      isReorder, at := false, 0;
      while at < |reorderBuffer|
        invariant at <= |reorderBuffer| && !isReorder
        invariant forall j :: 0 <= j < at ==> !Awaits(reorderBuffer[j], m)
      {
        if reorderBuffer[at].sender == m.sender && m.ts == reorderBuffer[at].lastTs + 1 {
          isReorder := true;
          break;
        }
        at := at + 1;
      }
    }

    method KVHandler(m: Msg<T>)
      requires Handle(S(), m).Some?
      modifies this
      ensures S() == Handle(old(S()), m).value
    {
      if m.cmd == Single {
        handled := handled + [NewMeta(m.sender, true).Add(m)];
        return;
      }
      if m.push {
        acked := acked + [m];
      }
      var isReorder, at := Open(m);
      Store(m, isReorder, at);
    }

    // Finds or starts the batch that the message belongs to.
    method Open(m: Msg<T>) returns (isReorder: bool, at: nat)
      requires m.cmd != Single
      modifies this`batchData, this`reorderBuffer
      ensures if m.cmd == Start then
          && !isReorder
          && reorderBuffer == old(reorderBuffer) + (
               if m.sender in old(batchData) then [old(batchData)[m.sender]] else [])
          && batchData == old(batchData)[m.sender := NewMeta(m.sender, false)]
        else
          && batchData == old(batchData) && reorderBuffer == old(reorderBuffer)
          && at == FirstAwaiting(reorderBuffer, m) && (isReorder <==> at < |reorderBuffer|)
    {
      isReorder, at := false, 0;
      if m.cmd == Start {
        if m.sender in batchData {
          reorderBuffer := reorderBuffer + [batchData[m.sender]];
        }
        batchData := batchData[m.sender := NewMeta(m.sender, false)];
      } else {
        isReorder, at := FindAwaiting(m);
      }
    }

    // Adds the message to its batch, and hands over a complete one.
    method Store(m: Msg<T>, isReorder: bool, at: nat)
      requires if isReorder then at < |reorderBuffer| else m.sender in batchData
      modifies this`batchData, this`reorderBuffer, this`handled
      ensures var a := if isReorder then old(reorderBuffer)[at].Add(m) else old(batchData)[m.sender].Add(m);
        && handled == old(handled) + (if m.cmd == End then [a] else [])
        && batchData == (if isReorder then old(batchData)
                         else if m.cmd == End then old(batchData) - {m.sender}
                         else old(batchData)[m.sender := a])
        && reorderBuffer == if !isReorder then old(reorderBuffer)
                            else if m.cmd == End then old(reorderBuffer)[..at] + old(reorderBuffer)[at + 1..]
                            else old(reorderBuffer)[at := a]
    {
      var afMeta := if isReorder then reorderBuffer[at].Add(m) else batchData[m.sender].Add(m);
      if m.cmd == End {
        handled := handled + [afMeta];
        if !isReorder {
          batchData := batchData - {m.sender};
        } else {
          reorderBuffer := reorderBuffer[..at] + reorderBuffer[at + 1..];
        }
      } else if isReorder {
        reorderBuffer := reorderBuffer[at := afMeta];
      } else {
        batchData := batchData[m.sender := afMeta];
      }
    }
  }
}
