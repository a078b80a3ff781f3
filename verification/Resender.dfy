/**
  The resender (comm/src/resender.h): outgoing messages are kept under a key
  until an ack with that key comes in, incoming ones are acked and, when their
  key has been seen before, dropped.
 */
module Resender {
  import opened Prelude

  // Meta::kEmpty and Node::kEmpty, the largest int16_t (comm/src/customer.cc); the
  // fields that are C++ ints are bv32.
  const EMPTY: bv32 := 0x7fff

  datatype Command = Ack | Terminate | Other

  datatype Key = Key(bits: bv64)

  // A node, by its id.
  datatype Node = Node(id: bv32)

  const NOBODY := Node(EMPTY)

  datatype Message = Message(command: Command, appId: bv32, sender: Node, recver: Node, timestamp: bv32,
                             request: bool, msgSig: Key, payload: seq<nat>)

  datatype Entry = Entry(msg: Message, send: int, numRetry: nat)

  datatype State = State(sendBuff: map<Key, Entry>, acked: set<Key>)

  // ---------------------------------------------------------------- keys

  function SenderOf(me: Node, m: Message): Node {
    if m.sender == NOBODY then me else m.sender
  }

  // timestamp << 1 is a signed int, so it is sign-extended.
  function ShiftedTimestamp(timestamp: bv32): bv64 {
    var t := timestamp << 1;
    if t & 0x8000_0000 != 0 then (t as bv64) | 0xffff_ffff_0000_0000 else t as bv64
  }

  // The app id is cut to 16 bits, the node ids to 8.
  function NodeBits(appId: bv32, sender: bv32, recver: bv32): bv64 {
    (((appId & 0xffff) as bv64) << 48) | (((sender & 0xff) as bv64) << 40) | (((recver & 0xff) as bv64) << 32)
  }

  function RequestBit(request: bool): bv64 {
    if request then 1 else 0
  }

  function WithTime(nodes: bv64, timestamp: bv32): bv64 {
    nodes | ShiftedTimestamp(timestamp)
  }

  function WithRequest(word: bv64, request: bool): bv64 {
    word | RequestBit(request)
  }

  function Combine(nodes: bv64, timestamp: bv32, request: bool): bv64 {
    WithRequest(WithTime(nodes, timestamp), request)
  }

  function KeyOf(appId: bv32, sender: bv32, recver: bv32, timestamp: bv32, request: bool): bv64 {
    Combine(NodeBits(appId, sender, recver), timestamp, request)
  }

  // The word that GetKey computes.
  function KeyWord(me: Node, m: Message): Key {
    Key(KeyOf(m.appId, SenderOf(me, m).id, m.recver.id, m.timestamp, m.request))
  }

  // None when the check on the timestamp fails.
  function GetKey(me: Node, m: Message): Option<Key> {
    if m.timestamp == EMPTY then None else Some(KeyWord(me, m))
  }

  // What identifies a message.
  datatype Ident = Ident(appId: bv32, sender: Node, recver: Node, timestamp: bv32, request: bool)

  function IdentOf(me: Node, m: Message): Ident {
    Ident(m.appId, SenderOf(me, m), m.recver, m.timestamp, m.request)
  }

  // The identities that a key has room for: 16-bit application, 8-bit nodes, no
  // negative timestamp.  Nodes are numbered without bound (comm/include/ps/internal/
  // postoffice.h:181-186), so others occur, too.
  predicate InWidth(i: Ident) {
    i.appId < 0x1_0000 && i.sender.id < 0x100 && i.recver.id < 0x100 && i.timestamp < 0x8000_0000
  }

  predicate InRange(i: Ident) {
    InWidth(i) && i.timestamp < 0x4000_0000
  }

  function IdentKey(i: Ident): Key {
    Key(KeyOf(i.appId, i.sender.id, i.recver.id, i.timestamp, i.request))
  }

  // Reads the fields back from a key.
  function Unkey(k: Key): Ident {
    var key := k.bits;
    Ident(((key >> 48) & 0xffff) as bv32, Node(((key >> 40) & 0xff) as bv32), Node(((key >> 32) & 0xff) as bv32),
          ((key >> 1) & 0x3fff_ffff) as bv32, key & 1 == 1)
  }

  lemma KeyFields(a: bv32, s: bv32, r: bv32, t: bv32, q: bool)
    requires a < 0x1_0000 && s < 0x100 && r < 0x100 && t < 0x4000_0000
    ensures Unkey(Key(KeyOf(a, s, r, t, q))) == Ident(a, Node(s), Node(r), t, q)
  {
  }

  // In range, a key is made for every timestamp but 32767, and the fields can be
  // read back from it.
  lemma KeyRoundTrip(me: Node, m: Message)
    requires InRange(IdentOf(me, m))
    ensures GetKey(me, m) == if m.timestamp == 32767 then None else Some(KeyWord(me, m))
    ensures Unkey(KeyWord(me, m)) == IdentOf(me, m)
  {
    KeyFields(m.appId, SenderOf(me, m).id, m.recver.id, m.timestamp, m.request);
  }

  // From 2^30 on the shifted timestamp is negative, and the sign extension wipes
  // out the application and the nodes.
  lemma KeyWiped(a: bv32, s: bv32, r: bv32, t: bv32, q: bool)
    requires 0x4000_0000 <= t < 0x8000_0000
    ensures KeyOf(a, s, r, t, q) == KeyOf(0, 0, 0, t, q)
  {
    NodesCovered(a, s, r, t);
    NodesCovered(0, 0, 0, t);
    SameTime(NodeBits(a, s, r), NodeBits(0, 0, 0), t, q);
  }

  lemma NodesCovered(a: bv32, s: bv32, r: bv32, t: bv32)
    requires 0x4000_0000 <= t < 0x8000_0000
    ensures WithTime(NodeBits(a, s, r), t) == ShiftedTimestamp(t)
  {
    HighBitsOnly(a, s, r);
    TimeCovers(NodeBits(a, s, r), t);
  }

  lemma SameTime(n: bv64, n': bv64, t: bv32, q: bool)
    requires WithTime(n, t) == WithTime(n', t)
    ensures Combine(n, t, q) == Combine(n', t, q)
  {
  }

  lemma HighBitsOnly(a: bv32, s: bv32, r: bv32)
    ensures NodeBits(a, s, r) & 0xffff_ffff == 0
  {
  }

  lemma HighHalfSet(t: bv32)
    requires 0x4000_0000 <= t < 0x8000_0000
    ensures ShiftedTimestamp(t) & 0xffff_ffff_0000_0000 == 0xffff_ffff_0000_0000
  {
  }

  lemma Covered(n: bv64, u: bv64)
    requires n & 0xffff_ffff == 0 && u & 0xffff_ffff_0000_0000 == 0xffff_ffff_0000_0000
    ensures n | u == u
  {
  }

  lemma TimeCovers(n: bv64, t: bv32)
    requires 0x4000_0000 <= t < 0x8000_0000 && n & 0xffff_ffff == 0
    ensures WithTime(n, t) == ShiftedTimestamp(t)
  {
    HighHalfSet(t);
    Covered(n, ShiftedTimestamp(t));
  }

  lemma KeyNegative(a: bv32, s: bv32, r: bv32, t: bv32, q: bool)
    requires t < 0x8000_0000
    ensures KeyOf(a, s, r, t, q) & 0x8000_0000 != 0 <==> t >= 0x4000_0000
  {
  }

  // What can still be read from a key: its sign, timestamp and request bit.
  function SignOf(k: Key): bool {
    k.bits & 0x8000_0000 != 0
  }

  function TimeOf(k: Key): bv32 {
    ((k.bits >> 1) & 0x7fff_ffff) as bv32
  }

  function RequestOf(k: Key): bool {
    k.bits & 1 == 1
  }

  lemma WipedTime(t: bv32, q: bool)
    requires 0x4000_0000 <= t < 0x8000_0000
    ensures TimeOf(Key(KeyOf(0, 0, 0, t, q))) == t
  {
  }

  lemma WipedRequest(t: bv32, q: bool)
    requires 0x4000_0000 <= t < 0x8000_0000
    ensures RequestOf(Key(KeyOf(0, 0, 0, t, q))) == q
  {
  }

  lemma EarlyKey(i: Ident)
    requires InRange(i)
    ensures Unkey(IdentKey(i)) == i && !SignOf(IdentKey(i))
  {
    KeyFields(i.appId, i.sender.id, i.recver.id, i.timestamp, i.request);
    KeyNegative(i.appId, i.sender.id, i.recver.id, i.timestamp, i.request);
  }

  lemma LateKey(i: Ident)
    requires InWidth(i) && !InRange(i)
    ensures IdentKey(i) == Key(KeyOf(0, 0, 0, i.timestamp, i.request)) && SignOf(IdentKey(i))
    ensures TimeOf(IdentKey(i)) == i.timestamp && RequestOf(IdentKey(i)) == i.request
  {
    KeyWiped(i.appId, i.sender.id, i.recver.id, i.timestamp, i.request);
    KeyNegative(i.appId, i.sender.id, i.recver.id, i.timestamp, i.request);
    WipedTime(i.timestamp, i.request);
    WipedRequest(i.timestamp, i.request);
  }

  lemma KeysEqualInWidth(i: Ident, j: Ident)
    requires InWidth(i) && InWidth(j)
    ensures IdentKey(i) == IdentKey(j) <==>
      i == j || (!InRange(i) && i.timestamp == j.timestamp && i.request == j.request)
  {
    if InRange(i) { EarlyKey(i); } else { LateKey(i); }
    if InRange(j) { EarlyKey(j); } else { LateKey(j); }
  }

  // What GetKey keeps of an identity.
  function Cut(i: Ident): Ident {
    i.(appId := i.appId & 0xffff, sender := Node(i.sender.id & 0xff), recver := Node(i.recver.id & 0xff))
  }

  lemma CutWidth(a: bv32, s: bv32, r: bv32)
    ensures a & 0xffff < 0x1_0000 && s & 0xff < 0x100 && r & 0xff < 0x100
  {
  }

  lemma CutBits(a: bv32, s: bv32, r: bv32)
    ensures NodeBits(a & 0xffff, s & 0xff, r & 0xff) == NodeBits(a, s, r)
  {
  }

  lemma CutWord(a: bv32, s: bv32, r: bv32, t: bv32, q: bool)
    ensures KeyOf(a & 0xffff, s & 0xff, r & 0xff, t, q) == KeyOf(a, s, r, t, q)
  {
    CutBits(a, s, r);
  }

  lemma CutInWidth(i: Ident)
    requires i.timestamp < 0x8000_0000
    ensures InWidth(Cut(i))
  {
    CutWidth(i.appId, i.sender.id, i.recver.id);
  }

  lemma CutKey(i: Ident)
    ensures IdentKey(Cut(i)) == IdentKey(i)
  {
    CutWord(i.appId, i.sender.id, i.recver.id, i.timestamp, i.request);
  }

  // Exactly when two identities share a key, whatever their nodes and applications.
  lemma KeysEqual(i: Ident, j: Ident)
    requires i.timestamp < 0x8000_0000 && j.timestamp < 0x8000_0000
    ensures IdentKey(i) == IdentKey(j) <==>
      Cut(i) == Cut(j) || (i.timestamp >= 0x4000_0000 && i.timestamp == j.timestamp && i.request == j.request)
  {
    CutInWidth(i);
    CutInWidth(j);
    CutKey(i);
    CutKey(j);
    KeysEqualInWidth(Cut(i), Cut(j));
  }

  // No other identity within the key's width has this key.
  ghost predicate Identifies(i: Ident) {
    forall j {:trigger IdentKey(j)} :: InWidth(j) && IdentKey(j) == IdentKey(i) ==> j == i
  }

  // Within the width, a key identifies its message exactly when the timestamp is
  // below 2^30.
  lemma KeyIdentifies(i: Ident)
    requires InWidth(i)
    ensures Identifies(i) <==> i.timestamp < 0x4000_0000
  {
    if i.timestamp < 0x4000_0000 {
      forall j | InWidth(j) && IdentKey(j) == IdentKey(i) ensures j == i { KeysEqualInWidth(i, j); }
    } else {
      KeysEqualInWidth(i, i.(appId := if i.appId == 0 then 1 else 0));
    }
  }

  // The identities of messages between these nodes, with early timestamps.
  ghost predicate Among(nodes: set<Node>, i: Ident) {
    i.sender in nodes && i.recver in nodes && i.appId < 0x1_0000 && i.timestamp < 0x4000_0000
  }

  ghost predicate KeysSeparateNodes(nodes: set<Node>) {
    forall i, j {:trigger IdentKey(i), IdentKey(j)} ::
      Among(nodes, i) && Among(nodes, j) && IdentKey(i) == IdentKey(j) ==> i == j
  }

  ghost predicate DistinctCuts(nodes: set<Node>) {
    forall n, m :: n in nodes && m in nodes && n.id & 0xff == m.id & 0xff ==> n == m
  }

  lemma SmallApp(a: bv32)
    requires a < 0x1_0000
    ensures a & 0xffff == a
  {
  }

  // Keys tell all early messages of a system apart exactly when no two of its nodes
  // agree in their lowest eight bits.
  lemma NodesSeparate(nodes: set<Node>)
    ensures KeysSeparateNodes(nodes) <==> DistinctCuts(nodes)
  {
    if DistinctCuts(nodes) {
      forall i, j | Among(nodes, i) && Among(nodes, j) && IdentKey(i) == IdentKey(j) ensures i == j {
        KeysEqual(i, j);
        SmallApp(i.appId);
        SmallApp(j.appId);
        assert Cut(i).sender == Cut(j).sender && Cut(i).recver == Cut(j).recver;
      }
    } else {
      var n, m :| n in nodes && m in nodes && n.id & 0xff == m.id & 0xff && n != m;
      var i, j := Ident(0, n, n, 0, true), Ident(0, m, n, 0, true);
      KeysEqual(i, j);
      assert IdentKey(i) == IdentKey(j) && Among(nodes, i) && Among(nodes, j);
    }
  }

  lemma SendersCollide(n: Node, m: Node, recver: Node, timestamp: bv32, request: bool)
    requires timestamp < 0x8000_0000 && n.id & 0xff == m.id & 0xff
    ensures IdentKey(Ident(0, n, recver, timestamp, request)) == IdentKey(Ident(0, m, recver, timestamp, request))
  {
    KeysEqual(Ident(0, n, recver, timestamp, request), Ident(0, m, recver, timestamp, request));
  }

  // Workers are numbered 2 * rank + 9: worker 128 has the keys of worker 0, and worker
  // 124 those of the scheduler, node 1.
  lemma WorkersCollide(recver: Node, timestamp: bv32, request: bool)
    requires timestamp < 0x8000_0000
    ensures IdentKey(Ident(0, Node(265), recver, timestamp, request)) ==
      IdentKey(Ident(0, Node(9), recver, timestamp, request))
    ensures IdentKey(Ident(0, Node(257), recver, timestamp, request)) ==
      IdentKey(Ident(0, Node(1), recver, timestamp, request))
  {
    SendersCollide(Node(265), Node(9), recver, timestamp, request);
    SendersCollide(Node(257), Node(1), recver, timestamp, request);
  }

  // In range, different messages have different keys.
  lemma KeysSeparate(me: Node, a: Message, me': Node, b: Message)
    requires InRange(IdentOf(me, a)) && InRange(IdentOf(me', b))
    ensures KeyWord(me, a) == KeyWord(me', b) <==> IdentOf(me, a) == IdentOf(me', b)
  {
    KeyRoundTrip(me, a);
    KeyRoundTrip(me', b);
  }

  // A key depends only on what identifies a message.
  ghost predicate SameKey(getKey: (Node, Message) -> Key, me: Node, a: Message, me': Node, b: Message) {
    IdentOf(me, a) == IdentOf(me', b) ==> getKey(me, a) == getKey(me', b)
  }

  ghost predicate Respects(getKey: (Node, Message) -> Key) {
    forall me, a, me', b {:trigger SameKey(getKey, me, a, me', b)} :: SameKey(getKey, me, a, me', b)
  }

  lemma KeyWordRespects()
    ensures Respects(KeyWord)
  {
    forall me, a, me', b ensures SameKey(KeyWord, me, a, me', b) {
      assert KeyWord(me, a) == IdentKey(IdentOf(me, a)) && KeyWord(me', b) == IdentKey(IdentOf(me', b));
    }
  }

  // Does the resender take a message, on its way out or in?
  predicate AcceptsOut(m: Message) {
    m.command == Ack || m.timestamp != EMPTY
  }

  predicate AcceptsIn(m: Message) {
    m.command != Other || m.timestamp != EMPTY
  }

  // Both sides take a message that is not an ack exactly when its timestamp is not 32767.
  lemma RejectedTimestamp(m: Message)
    requires m.command == Other
    ensures AcceptsOut(m) <==> m.timestamp != 32767
    ensures AcceptsIn(m) <==> m.timestamp != 32767
    ensures forall me :: GetKey(me, m).None? <==> m.timestamp == 32767
  {
  }

  // ---------------------------------------------------------------- steps

  // Buffer an outgoing message under its key, unless it is an ack or already there.
  function Outgoing(s: State, m: Message, key: Key, now: int): State {
    if m.command == Ack || key in s.sendBuff then s
    else s.(sendBuff := s.sendBuff[key := Entry(m, now, 0)])
  }

  // Is an incoming message kept from the upper layers, and the new state.
  function Incoming(s: State, m: Message, key: Key): (bool, State) {
    match m.command
    case Terminate => (false, s)
    case Ack => (true, s.(sendBuff := s.sendBuff - {m.msgSig}))
    case Other => (key in s.acked, s.(acked := s.acked + {key}))
  }

  function AckFor(m: Message, key: Key): Message {
    Message(Ack, EMPTY, m.recver, m.sender, EMPTY, false, key, [])
  }

  predicate Expired(e: Entry, timeout: int, now: int) {
    e.send + timeout * (1 + e.numRetry) < now
  }

  function Tried(e: Entry, timeout: int, now: int): Entry {
    if Expired(e, timeout, now) then e.(numRetry := e.numRetry + 1) else e
  }

  // The buffer after a pass of the monitor.
  function Retried(buff: map<Key, Entry>, timeout: int, now: int): map<Key, Entry> {
    map k | k in buff :: Tried(buff[k], timeout, now)
  }

  // A pass ends the process when a message has been tried too often.
  predicate GivesUp(buff: map<Key, Entry>, timeout: int, now: int, maxNumRetry: nat) {
    exists k :: k in buff && Expired(buff[k], timeout, now) && buff[k].numRetry + 1 >= maxNumRetry
  }

  // An entry after passes of the monitor at these times.
  function Passes(e: Entry, timeout: int, times: seq<int>): Entry {
    if times == [] then e else Tried(Passes(e, timeout, times[..|times| - 1]), timeout, times[|times| - 1])
  }

  // The j-th resend comes more than j timeouts after the message was buffered.
  lemma {:induction false} ResentLate(e: Entry, timeout: int, times: seq<int>, j: nat)
    requires e.numRetry == 0 && 1 <= j <= Passes(e, timeout, times).numRetry
    ensures exists i :: 0 <= i < |times| && times[i] - e.send > j * timeout
  {
    PassesKeep(e, timeout, times);
    if times != [] {
      var n := |times| - 1;
      var before := Passes(e, timeout, times[..n]);
      PassesKeep(e, timeout, times[..n]);
      if j <= before.numRetry {
        ResentLate(e, timeout, times[..n], j);
        var i :| 0 <= i < n && times[..n][i] - e.send > j * timeout;
        assert times[i] - e.send > j * timeout;
      } else {
        assert j == before.numRetry + 1 && timeout * j == j * timeout;
        assert times[n] - e.send > j * timeout;
      }
    }
  }

  lemma {:induction false} PassesKeep(e: Entry, timeout: int, times: seq<int>)
    ensures Passes(e, timeout, times).send == e.send && Passes(e, timeout, times).msg == e.msg
  {
    if times != [] { PassesKeep(e, timeout, times[..|times| - 1]); }
  }

  // A message is resent in every pass, as long as the passes are more than a timeout
  // late each.
  lemma {:induction false} ResentInTime(e: Entry, timeout: int, times: seq<int>)
    requires e.numRetry == 0 && forall i :: 0 <= i < |times| ==> times[i] - e.send > (i + 1) * timeout
    ensures Passes(e, timeout, times).numRetry == |times|
  {
    if times != [] {
      var n := |times| - 1;
      ResentInTime(e, timeout, times[..n]);
      PassesKeep(e, timeout, times[..n]);
      assert times[n] - e.send > (n + 1) * timeout && timeout * (1 + n) == (n + 1) * timeout;
    }
  }

  // The keys of the expired messages, each once, in some order.
  ghost predicate ListsExpired(buff: map<Key, Entry>, timeout: int, now: int, order: seq<Key>) {
    && (forall k :: k in order <==> k in buff && Expired(buff[k], timeout, now))
    && Distinct(order)
  }

  function MessagesOf(buff: map<Key, Entry>, order: seq<Key>): seq<Message>
    requires forall i :: 0 <= i < |order| ==> order[i] in buff
  {
    seq(|order|, i requires 0 <= i < |order| => buff[order[i]].msg)
  }

  class Resender {
    const me: Node
    const timeout: int
    const maxNumRetry: nat
    var sendBuff: map<Key, Entry>
    var acked: set<Key>

    function Value(): State
      reads this
    {
      State(sendBuff, acked)
    }

    constructor (me: Node, timeout: int, maxNumRetry: nat)
      ensures Value() == State(map[], {}) && this.me == me && this.timeout == timeout && this.maxNumRetry == maxNumRetry
    {
      this.me, this.timeout, this.maxNumRetry := me, timeout, maxNumRetry;
      sendBuff, acked := map[], {};
    }

    // ok is false when the check on the timestamp fails: exactly for timestamp
    // 32767 on a message that is not an ack.
    method AddOutgoing(m: Message, now: int) returns (ok: bool)
      modifies this
      ensures ok <==> AcceptsOut(m)
      ensures m.command != Ack ==> (ok <==> m.timestamp != 32767)
      ensures Value() == if ok then Outgoing(old(Value()), m, KeyWord(me, m), now) else old(Value())
    {
      if m.command == Ack { return true; }
      if m.timestamp == EMPTY { return false; }
      var key := GetKey(me, m).value;
      if key in sendBuff { return true; }
      sendBuff := sendBuff[key := Entry(m, now, 0)];
      return true;
    }

    // ok is false when GetKey fails.
    method AddIncomming(m: Message) returns (ok: bool, drop: bool, ack: Option<Message>)
      modifies this
      ensures ok <==> AcceptsIn(m)
      ensures m.command == Other ==> (ok <==> m.timestamp != 32767)
      ensures ok ==> (drop, Value()) == Incoming(old(Value()), m, KeyWord(me, m))
      ensures ok ==> ack == if m.command == Other then Some(AckFor(m, KeyWord(me, m))) else None
      ensures !ok ==> Value() == old(Value())
    {
      if m.command == Terminate {
        return true, false, None;
      } else if m.command == Ack {
        if m.msgSig in sendBuff { sendBuff := sendBuff - {m.msgSig}; }
        assert sendBuff == old(sendBuff) - {m.msgSig};
        return true, true, None;
      } else {
        var key := GetKey(me, m);
        if key == None { return false, false, None; }
        var duplicated := key.value in acked;
        if !duplicated { acked := acked + {key.value}; }
        assert acked == old(acked) + {key.value};
        return true, duplicated, Some(AckFor(m, key.value));
      }
    }

    // One pass over the buffer; ok is false when it gives up.
    method Monitoring(now: int) returns (ok: bool, resend: seq<Message>, ghost order: seq<Key>)
      modifies this`sendBuff
      ensures ok <==> !GivesUp(old(sendBuff), timeout, now, maxNumRetry)
      ensures ok ==> sendBuff == Retried(old(sendBuff), timeout, now)
      ensures ok ==> ListsExpired(old(sendBuff), timeout, now, order) && resend == MessagesOf(old(sendBuff), order)
    {
      ghost var before := sendBuff;
      resend, order := [], [];
      var rest := sendBuff.Keys;
      while rest != {}
        invariant rest <= before.Keys == sendBuff.Keys
        invariant forall k :: k in before ==>
          sendBuff[k] == if k in rest then before[k] else Tried(before[k], timeout, now)
        invariant forall k :: k in order <==> k in before && k !in rest && Expired(before[k], timeout, now)
        invariant Distinct(order)
        invariant forall k :: k in before && k !in rest && Expired(before[k], timeout, now) ==>
          before[k].numRetry + 1 < maxNumRetry
        invariant resend == MessagesOf(before, order)
        decreases |rest|
      {
        var k :| k in rest;
        var e := sendBuff[k];
        rest := rest - {k};
        if Expired(e, timeout, now) {
          resend := resend + [e.msg];
          order := order + [k];
          sendBuff := sendBuff[k := e.(numRetry := e.numRetry + 1)];
          if !(e.numRetry + 1 < maxNumRetry) {
            return false, resend, order;
          }
        }
      }
      ok := true;
    }
  }
}
