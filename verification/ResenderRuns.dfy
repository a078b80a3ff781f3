/**
  Van::Send and Van::Receiving around the resender (comm/src/van.cc,
  comm/src/resender.h) over a network that may lose, duplicate and reorder.
  A run is any interleaving of the steps of the nodes' threads: a message is
  transmitted before it is buffered, the monitor resends outside the lock, and a
  received message is recorded, acked and passed up in three steps.
 */
module ResenderRuns {
  import opened Prelude
  import opened Resender

  type KeyFn = (Node, Message) -> Key

  // What the receiving thread is doing.
  datatype Hand = Idle | Recorded(msg: Message, drop: bool) | Answered(msg: Message, drop: bool)

  datatype Local = Local(
    state: State,
    sending: multiset<Message>,   // transmitted, not yet buffered
    resend: seq<Message>,         // what the monitor still has to resend
    hand: Hand,
    passed: seq<Message>,         // passed up, in order
    alive: bool)                  // no check has failed yet

  // net: every message ever transmitted.  A lost message is one that is never
  // taken from it, a duplicated one is taken more than once.
  datatype World = World(
    getKey: KeyFn, timeout: int, maxNumRetry: nat, at: map<Node, Local>, net: set<Message>, sent: set<Message>)

  datatype Event =
    | Transmit(node: Node, msg: Message)                  // Send: SendMsg
    | Buffer(node: Node, msg: Message, now: int)          // Send: AddOutgoing
    | Monitor(node: Node, now: int, order: seq<Key>)      // Monitoring, in the lock
    | Resend(node: Node)                                  // Monitoring, after it
    | Receive(msg: Message)                               // AddIncomming, in the lock
    | SendAck(node: Node)                                 // AddIncomming, after it
    | PassUp(node: Node)                                  // Receiving, the rest

  // The transport puts the sender on a message.
  function Stamped(n: Node, m: Message): Message {
    m.(sender := n)
  }

  // The key of a message that carries its sender.
  ghost function KeyFor(f: KeyFn, m: Message): Key {
    f(m.sender, m)
  }

  function Id(m: Message): Ident {
    IdentOf(m.sender, m)
  }

  // A message that may be sent by n.
  ghost predicate MaySend(w: World, n: Node, m: Message) {
    (m.sender == NOBODY || m.sender == n) && m.recver in w.at && m.command == Other
  }

  // Another message with the same key, from the same sender or to the same receiver,
  // that can be received.
  ghost predicate Conflicts(f: KeyFn, o: Message, m: Message) {
    && o != m && KeyFor(f, o) == KeyFor(f, m) && o.timestamp != EMPTY
    && (o.sender == m.sender || o.recver == m.recver)
  }

  // No message that was sent conflicts with m.
  ghost predicate Alone(f: KeyFn, sent: set<Message>, m: Message) {
    forall o {:trigger Conflicts(f, o, m)} :: o in sent ==> !Conflicts(f, o, m)
  }

  // A process that has failed a check makes no further step.
  ghost predicate Up(w: World, n: Node) {
    n in w.at && w.at[n].alive
  }

  ghost predicate Enabled(w: World, e: Event) {
    match e
    case Transmit(n, m) => Up(w, n) && MaySend(w, n, m)
    case Buffer(n, m, _) => Up(w, n) && m in w.at[n].sending
    case Monitor(n, now, order) =>
      && Up(w, n) && w.at[n].resend == []
      && ListsExpired(w.at[n].state.sendBuff, w.timeout, now, order)
    case Resend(n) => Up(w, n) && w.at[n].resend != []
    case Receive(m) => m in w.net && Up(w, m.recver) && w.at[m.recver].hand == Idle
    case SendAck(n) => Up(w, n) && w.at[n].hand.Recorded?
    case PassUp(n) => Up(w, n) && w.at[n].hand.Answered?
  }

  ghost function Put(w: World, n: Node, l: Local): World {
    w.(at := w.at[n := l])
  }

  ghost function Next(w: World, e: Event): World
    requires Enabled(w, e)
  {
    match e
    case Transmit(n, m) =>
      var l := w.at[n];
      Put(w, n, l.(sending := l.sending + multiset{m})).(net := w.net + {Stamped(n, m)},
        sent := w.sent + {Stamped(n, m)})
    case Buffer(n, m, now) =>
      var l := w.at[n].(sending := w.at[n].sending - multiset{m});
      Put(w, n, if AcceptsOut(m) then l.(state := Outgoing(l.state, m, w.getKey(n, m), now)) else l.(alive := false))
    case Monitor(n, now, order) =>
      var l := w.at[n];
      if GivesUp(l.state.sendBuff, w.timeout, now, w.maxNumRetry) then Put(w, n, l.(alive := false))
      else
        Put(w, n, l.(state := l.state.(sendBuff := Retried(l.state.sendBuff, w.timeout, now)),
                     resend := MessagesOf(l.state.sendBuff, order)))
    case Resend(n) =>
      var l := w.at[n];
      var m := l.resend[0];
      Put(w, n, l.(sending := l.sending + multiset{m}, resend := l.resend[1..])).(net := w.net + {Stamped(n, m)})
    case Receive(m) =>
      var n, l := m.recver, w.at[m.recver];
      var (drop, state) := Incoming(l.state, m, w.getKey(n, m));
      if AcceptsIn(m) then Put(w, n,
        l.(state := state, hand := if m.command == Other then Recorded(m, drop) else l.hand))
      else Put(w, n, l.(alive := false))
    case SendAck(n) =>
      var l := w.at[n];
      Put(w, n, l.(hand := Answered(l.hand.msg, l.hand.drop))).(net := w.net + {AckFor(l.hand.msg,
        w.getKey(n, l.hand.msg))})
    case PassUp(n) =>
      var l := w.at[n];
      Put(w, n, l.(hand := Idle, passed := if l.hand.drop then l.passed else l.passed + [l.hand.msg]))
  }

  // ---------------------------------------------------------------- invariant

  // A message held by node n has been sent by it.
  ghost predicate Known(sent: set<Message>, n: Node, m: Message) {
    (m.sender == NOBODY || m.sender == n) && Stamped(n, m) in sent
  }

  ghost predicate BufferedOk(f: KeyFn, sent: set<Message>, n: Node, k: Key, m: Message) {
    Known(sent, n, m) && f(n, m) == k && m.timestamp != EMPTY
  }

  ghost predicate SenderOk(f: KeyFn, sent: set<Message>, n: Node, l: Local) {
    && (forall m :: m in l.sending ==> Known(sent, n, m))
    && (forall i :: 0 <= i < |l.resend| ==> Known(sent, n, l.resend[i]) && l.resend[i].timestamp != EMPTY)
    && (forall k :: k in l.state.sendBuff ==> BufferedOk(f, sent, n, k, l.state.sendBuff[k].msg))
  }

  // The key of the message in hand, when it is going to be passed up.
  ghost function InHand(f: KeyFn, l: Local): set<Key> {
    if l.hand.Idle? || l.hand.drop then {} else {KeyFor(f, l.hand.msg)}
  }

  ghost function PassedKeys(f: KeyFn, passed: seq<Message>): set<Key> {
    set m | m in passed :: KeyFor(f, m)
  }

  ghost predicate DistinctKeys(f: KeyFn, passed: seq<Message>) {
    forall i, j :: 0 <= i < j < |passed| ==> KeyFor(f, passed[i]) != KeyFor(f, passed[j])
  }

  ghost predicate ReceivedOk(sent: set<Message>, n: Node, m: Message) {
    m in sent && m.recver == n && m.timestamp != EMPTY
  }

  // What has been recorded has been passed up or is in hand; never both.
  ghost predicate ReceiverOk(f: KeyFn, sent: set<Message>, n: Node, l: Local) {
    && (forall m :: m in l.passed ==> ReceivedOk(sent, n, m))
    && (!l.hand.Idle? ==> ReceivedOk(sent, n, l.hand.msg) && KeyFor(f, l.hand.msg) in l.state.acked)
    && DistinctKeys(f, l.passed)
    && l.state.acked == PassedKeys(f, l.passed) + InHand(f, l)
    && InHand(f, l) !! PassedKeys(f, l.passed)
  }

  // Passed up, or recorded and about to be dealt with.
  ghost predicate Has(l: Local, m: Message) {
    m in l.passed || (!l.hand.Idle? && l.hand.msg == m)
  }

  ghost predicate SentOk(nodes: set<Node>, m: Message) {
    m.command == Other && m.sender in nodes && m.recver in nodes
  }

  // A sent message has been recorded, or its sender still has it, unless another one
  // conflicts with it.
  ghost predicate Kept(w: World, m: Message) {
    m.sender in w.at && m.recver in w.at ==>
      || Held(w.getKey, w.at[m.sender], m)
      || (m.timestamp != EMPTY
          && (KeyFor(w.getKey, m) in w.at[m.recver].state.acked || !Alone(w.getKey, w.sent, m)))
  }

  // Transmitted, and not yet buffered.
  ghost predicate MidSend(l: Local, m: Message) {
    m in l.sending || m.(sender := NOBODY) in l.sending
  }

  // A message with timestamp 32767 cannot be buffered: its sender fails instead.
  ghost predicate Held(f: KeyFn, l: Local, m: Message) {
    MidSend(l, m) || if m.timestamp == EMPTY then !l.alive else KeyFor(f, m) in l.state.sendBuff
  }

  ghost predicate IsAckOf(f: KeyFn, ack: Message, o: Message) {
    ack.msgSig == KeyFor(f, o) && ack.recver == o.sender && ack.sender == o.recver && o.timestamp != EMPTY
  }

  // An ack is for a message that was sent.
  ghost predicate AcksSent(f: KeyFn, sent: set<Message>, ack: Message) {
    exists o {:trigger IsAckOf(f, ack, o)} :: o in sent && IsAckOf(f, ack, o)
  }

  // An ack on the network tells the truth about its key.
  ghost predicate NetOk(w: World, m: Message) {
    if m.command == Ack then
      m.sender in w.at && m.msgSig in w.at[m.sender].state.acked && AcksSent(w.getKey, w.sent, m)
    else m in w.sent
  }

  ghost predicate Inv(w: World) {
    && Respects(w.getKey) && NOBODY !in w.at
    && (forall n {:trigger SenderOk(w.getKey, w.sent, n, w.at[n])} :: n in w.at ==>
      SenderOk(w.getKey, w.sent, n, w.at[n]))
    && (forall n {:trigger ReceiverOk(w.getKey, w.sent, n, w.at[n])} :: n in w.at ==>
      ReceiverOk(w.getKey, w.sent, n, w.at[n]))
    && (forall m {:trigger SentOk(w.at.Keys, m)} :: m in w.sent ==> SentOk(w.at.Keys, m))
    && (forall m {:trigger Kept(w, m)} :: m in w.sent ==> Kept(w, m))
    && (forall m {:trigger NetOk(w, m)} :: m in w.net ==> NetOk(w, m))
  }

  // Nothing that node's messages need is lost from its local state.
  ghost predicate StillHeld(f: KeyFn, n: Node, l: Local, l': Local) {
    && l.state.acked <= l'.state.acked
    && forall m: Message {:trigger Held(f, l', m)} :: m.sender == n && Held(f, l, m) ==> Held(f, l', m)
  }

  // After a step of node n, everything elsewhere is as before.
  ghost predicate OnlyAt(w: World, w': World, n: Node) {
    && w'.getKey == w.getKey && w'.at.Keys == w.at.Keys && n in w.at && w.sent <= w'.sent
    && w.at[n].state.acked <= w'.at[n].state.acked
    && forall p :: p in w.at && p != n ==> w'.at[p] == w.at[p]
  }

  lemma MoreSent(f: KeyFn, sent: set<Message>, sent': set<Message>, n: Node, l: Local)
    requires sent <= sent' && SenderOk(f, sent, n, l) && ReceiverOk(f, sent, n, l)
    ensures SenderOk(f, sent', n, l) && ReceiverOk(f, sent', n, l)
  {
  }

  lemma StaysKept(w: World, w': World, n: Node, m: Message)
    requires OnlyAt(w, w', n) && Kept(w, m) && (m.sender == n && Held(w.getKey, w.at[n], m) ==> Kept(w', m))
    ensures Kept(w', m)
  {
    assert Alone(w.getKey, w'.sent, m) ==> Alone(w.getKey, w.sent, m);
  }

  lemma StaysTrue(w: World, w': World, n: Node, m: Message)
    requires OnlyAt(w, w', n) && NetOk(w, m)
    ensures NetOk(w', m)
  {
    if m.command == Ack {
      var o :| o in w.sent && IsAckOf(w.getKey, m, o);
      assert o in w'.sent;
    }
  }

  lemma Elsewhere(w: World, w': World, n: Node)
    requires Inv(w) && OnlyAt(w, w', n)
    requires SenderOk(w.getKey, w'.sent, n, w'.at[n]) && ReceiverOk(w.getKey, w'.sent, n, w'.at[n])
    requires forall m :: m in w'.sent && m !in w.sent ==> SentOk(w.at.Keys, m) && Kept(w', m)
    requires forall m :: m in w.sent && m.sender == n && Held(w.getKey, w.at[n], m) ==> Kept(w', m)
    requires forall m :: m in w'.net && m !in w.net ==> NetOk(w', m)
    ensures Inv(w')
  {
    var f := w.getKey;
    forall m | m in w'.at
      ensures SenderOk(f, w'.sent, m, w'.at[m]) { if m != n { MoreSent(f, w.sent, w'.sent, m, w.at[m]); } }
    forall m | m in w'.at
      ensures ReceiverOk(f, w'.sent, m, w'.at[m]) { if m != n { MoreSent(f, w.sent, w'.sent, m, w.at[m]); } }
    forall m | m in w'.sent ensures SentOk(w'.at.Keys, m) { if m in w.sent { assert SentOk(w.at.Keys, m); } }
    forall m | m in w'.sent ensures Kept(w', m) { if m in w.sent { assert Kept(w, m); StaysKept(w, w', n, m); } }
    forall m | m in w'.net ensures NetOk(w', m) { if m in w.net { StaysTrue(w, w', n, m); } }
  }

  // A step that sends nothing new and loses nothing.
  lemma StepKeeps(w: World, n: Node, l': Local, net': set<Message>)
    requires Inv(w) && n in w.at && StillHeld(w.getKey, n, w.at[n], l')
    requires SenderOk(w.getKey, w.sent, n, l') && ReceiverOk(w.getKey, w.sent, n, l')
    requires forall m :: m in net' && m !in w.net ==>
      if m.command == Ack then m.sender == n && m.msgSig in l'.state.acked && AcksSent(w.getKey, w.sent, m)
      else m in w.sent
    ensures Inv(w.(at := w.at[n := l'], net := net'))
  {
    Elsewhere(w, w.(at := w.at[n := l'], net := net'), n);
  }

  lemma TransmitKeeps(w: World, n: Node, m: Message)
    requires Inv(w) && Enabled(w, Transmit(n, m))
    ensures Inv(Next(w, Transmit(n, m)))
  {
    var l, f, x := w.at[n], w.getKey, Stamped(n, m);
    var w' := Next(w, Transmit(n, m));
    assert SenderOk(f, w.sent, n, l) && ReceiverOk(f, w.sent, n, l);
    TransmitHolds(f, w.sent, n, l, m);
    var l' := l.(sending := l.sending + multiset{m});
    assert w' == w.(at := w.at[n := l'], net := w.net + {x}, sent := w.sent + {x});
    Elsewhere(w, w', n);
  }

  lemma TransmitHolds(f: KeyFn, sent: set<Message>, n: Node, l: Local, m: Message)
    requires SenderOk(f, sent, n, l) && ReceiverOk(f, sent, n, l) && (m.sender == NOBODY || m.sender == n)
    ensures var l' := l.(sending := l.sending + multiset{m});
      && SenderOk(f, sent + {Stamped(n, m)}, n, l') && ReceiverOk(f, sent + {Stamped(n, m)}, n, l')
      && StillHeld(f, n, l, l') && Held(f, l', Stamped(n, m))
  {
    assert Stamped(n, m) == m || Stamped(n, m).(sender := NOBODY) == m;
  }

  // The key does not depend on whether the sender is filled in.
  lemma KeyOfStamped(w: World, n: Node, m: Message)
    requires Inv(w) && Known(w.sent, n, m)
    ensures w.getKey(n, m) == KeyFor(w.getKey, Stamped(n, m)) && m.command == Other
  {
    assert SentOk(w.at.Keys, Stamped(n, m));
    assert IdentOf(n, m) == Id(Stamped(n, m));
    assert SameKey(w.getKey, n, m, n, Stamped(n, m));
  }

  // AddOutgoing on a local state, whether it fails or not.
  function Buffered(f: KeyFn, n: Node, l: Local, m: Message, now: int): Local {
    var l1 := l.(sending := l.sending - multiset{m});
    if AcceptsOut(m) then l1.(state := Outgoing(l.state, m, f(n, m), now)) else l1.(alive := false)
  }

  lemma OutgoingSender(f: KeyFn, sent: set<Message>, n: Node, l: Local, m: Message, now: int)
    requires SenderOk(f, sent, n, l) && m in l.sending
    ensures SenderOk(f, sent, n, Buffered(f, n, l, m, now))
  {
    assert Known(sent, n, m);
  }

  lemma OutgoingHeld(f: KeyFn, n: Node, l: Local, m: Message, now: int, x: Message)
    requires f(n, m) == KeyFor(f, Stamped(n, m)) && m.command == Other && x.sender == n && Held(f, l, x)
    ensures Held(f, Buffered(f, n, l, m, now), x)
  {
    if MidSend(l, x) && !MidSend(l.(sending := l.sending - multiset{m}), x) { LastCopy(n, l, m, x); }
  }

  lemma OutgoingHolds(f: KeyFn, sent: set<Message>, n: Node, l: Local, m: Message, now: int)
    requires SenderOk(f, sent, n, l) && m in l.sending && f(n, m) == KeyFor(f, Stamped(n, m)) && m.command == Other
    ensures SenderOk(f, sent, n, Buffered(f, n, l, m, now)) && StillHeld(f, n, l, Buffered(f, n, l, m, now))
  {
    OutgoingSender(f, sent, n, l, m, now);
    var l' := Buffered(f, n, l, m, now);
    forall x: Message | x.sender == n && Held(f, l, x) ensures Held(f, l', x) { OutgoingHeld(f, n, l, m, now, x); }
  }

  // A message that is no longer being sent is the one that was taken out.
  lemma LastCopy(n: Node, l: Local, m: Message, x: Message)
    requires x.sender == n && MidSend(l, x) && !MidSend(l.(sending := l.sending - multiset{m}), x)
    ensures Stamped(n, m) == x
  {
    assert Stamped(n, x) == x && Stamped(n, x.(sender := NOBODY)) == x;
  }

  lemma BufferKeeps(w: World, n: Node, m: Message, now: int)
    requires Inv(w) && Enabled(w, Buffer(n, m, now))
    ensures Inv(Next(w, Buffer(n, m, now)))
  {
    var l, f := w.at[n], w.getKey;
    assert SenderOk(f, w.sent, n, l) && ReceiverOk(f, w.sent, n, l);
    KeyOfStamped(w, n, m);
    OutgoingHolds(f, w.sent, n, l, m, now);
    StepKeeps(w, n, Buffered(f, n, l, m, now), w.net);
  }

  // A process that ends keeps what it had.
  lemma EndKeeps(w: World, n: Node)
    requires Inv(w) && n in w.at
    ensures Inv(Put(w, n, w.at[n].(alive := false)))
  {
    var l := w.at[n];
    assert SenderOk(w.getKey, w.sent, n, l) && ReceiverOk(w.getKey, w.sent, n, l);
    StepKeeps(w, n, l.(alive := false), w.net);
  }

  lemma MonitorKeeps(w: World, n: Node, now: int, order: seq<Key>)
    requires Inv(w) && Enabled(w, Monitor(n, now, order))
    ensures Inv(Next(w, Monitor(n, now, order)))
  {
    var l := w.at[n];
    assert SenderOk(w.getKey, w.sent, n, l) && ReceiverOk(w.getKey, w.sent, n, l);
    if GivesUp(l.state.sendBuff, w.timeout, now, w.maxNumRetry) {
      EndKeeps(w, n);
    } else {
      var buff := Retried(l.state.sendBuff, w.timeout, now);
      StepKeeps(w, n, l.(state := l.state.(sendBuff := buff), resend := MessagesOf(l.state.sendBuff, order)), w.net);
    }
  }

  lemma ResendKeeps(w: World, n: Node)
    requires Inv(w) && Enabled(w, Resend(n))
    ensures Inv(Next(w, Resend(n)))
  {
    var l := w.at[n];
    assert SenderOk(w.getKey, w.sent, n, l) && ReceiverOk(w.getKey, w.sent, n, l);
    var m := l.resend[0];
    assert Known(w.sent, n, m) && SentOk(w.at.Keys, Stamped(n, m));
    StepKeeps(w, n, l.(sending := l.sending + multiset{m}, resend := l.resend[1..]), w.net + {Stamped(n, m)});
  }

  // An ack that meets a message of its key comes from that message's receiver, which
  // has recorded it, unless another message conflicts with it.
  lemma AckIsTrue(w: World, ack: Message, m: Message)
    requires Inv(w) && ack in w.net && ack.command == Ack
    requires m in w.sent && m.sender == ack.recver && KeyFor(w.getKey, m) == ack.msgSig
    requires Alone(w.getKey, w.sent, m)
    ensures m.recver == ack.sender && m.recver in w.at && ack.msgSig in w.at[m.recver].state.acked
  {
    assert NetOk(w, ack);
    var o :| o in w.sent && IsAckOf(w.getKey, ack, o);
    assert !Conflicts(w.getKey, o, m);
  }

  // A recorded key belongs to a message sent to the node that recorded it.
  lemma RecordedFor(w: World, n: Node, k: Key) returns (m: Message)
    requires Inv(w) && n in w.at && k in w.at[n].state.acked
    ensures ReceivedOk(w.sent, n, m) && KeyFor(w.getKey, m) == k && Has(w.at[n], m)
  {
    var l := w.at[n];
    assert ReceiverOk(w.getKey, w.sent, n, l);
    if k in InHand(w.getKey, l) {
      m := l.hand.msg;
    } else {
      m :| m in l.passed && KeyFor(w.getKey, m) == k;
    }
  }

  lemma ReceiveAckKeeps(w: World, m: Message)
    requires Inv(w) && Enabled(w, Receive(m)) && m.command == Ack
    ensures Inv(Next(w, Receive(m)))
  {
    var n, k := m.recver, m.msgSig;
    if k in w.at[n].state.sendBuff {
      forall p | p in w.sent && p.sender == n && KeyFor(w.getKey, p) == k && Alone(w.getKey, w.sent, p)
        ensures p.recver in w.at && k in w.at[p.recver].state.acked {
        AckIsTrue(w, m, p);
      }
    }
    TakeOut(w, n, k);
  }

  function Without(l: Local, k: Key): Local {
    l.(state := l.state.(sendBuff := l.state.sendBuff - {k}))
  }

  lemma WithoutHolds(f: KeyFn, sent: set<Message>, n: Node, l: Local, k: Key)
    requires SenderOk(f, sent, n, l) && ReceiverOk(f, sent, n, l)
    ensures SenderOk(f, sent, n, Without(l, k)) && ReceiverOk(f, sent, n, Without(l, k))
    ensures forall p {:trigger Held(f, Without(l, k), p)} ::
      Held(f, l, p) && (KeyFor(f, p) != k || k !in l.state.sendBuff || p.timestamp == EMPTY) ==>
        Held(f, Without(l, k), p)
  {
  }

  // A key may leave a buffer when its messages have been recorded.
  lemma TakeOut(w: World, n: Node, k: Key)
    requires Inv(w) && n in w.at
    requires k in w.at[n].state.sendBuff ==>
      forall p :: p in w.sent && p.sender == n && KeyFor(w.getKey, p) == k && Alone(w.getKey, w.sent, p) ==>
        p.recver in w.at && k in w.at[p.recver].state.acked
    ensures Inv(w.(at := w.at[n := Without(w.at[n], k)]))
  {
    var l, f := w.at[n], w.getKey;
    var w' := w.(at := w.at[n := Without(l, k)]);
    assert SenderOk(f, w.sent, n, l) && ReceiverOk(f, w.sent, n, l);
    WithoutHolds(f, w.sent, n, l, k);
    forall p | p in w.sent && p.sender == n && Held(f, l, p) ensures Kept(w', p) {
      assert Held(f, Without(l, k), p) || (KeyFor(f, p) == k && k in l.state.sendBuff && p.timestamp != EMPTY);
    }
    Elsewhere(w, w', n);
  }

  lemma ReceiveKeeps(w: World, m: Message)
    requires Inv(w) && Enabled(w, Receive(m)) && m.command != Ack
    ensures Inv(Next(w, Receive(m)))
  {
    var n, f := m.recver, w.getKey;
    var l := w.at[n];
    assert SenderOk(f, w.sent, n, l) && ReceiverOk(f, w.sent, n, l) && NetOk(w, m) && SentOk(w.at.Keys, m);
    if !AcceptsIn(m) {
      EndKeeps(w, n);
      return;
    }
    assert SameKey(f, n, m, m.sender, m);
    var (drop, state) := Incoming(l.state, m, f(n, m));
    var l' := l.(state := state, hand := Recorded(m, drop));
    StepKeeps(w, n, l', w.net);
  }

  lemma SendAckKeeps(w: World, n: Node)
    requires Inv(w) && Enabled(w, SendAck(n))
    ensures Inv(Next(w, SendAck(n)))
  {
    var l, f := w.at[n], w.getKey;
    var m := l.hand.msg;
    assert SenderOk(f, w.sent, n, l) && ReceiverOk(f, w.sent, n, l) && SentOk(w.at.Keys, m);
    assert SameKey(f, n, m, m.sender, m);
    assert ReceivedOk(w.sent, n, m) && IsAckOf(f, AckFor(m, f(n, m)), m);
    StepKeeps(w, n, l.(hand := Answered(m, l.hand.drop)), w.net + {AckFor(m, f(n, m))});
  }

  lemma PassUpKeeps(w: World, n: Node)
    requires Inv(w) && Enabled(w, PassUp(n))
    ensures Inv(Next(w, PassUp(n)))
  {
    var l, f := w.at[n], w.getKey;
    assert SenderOk(f, w.sent, n, l) && ReceiverOk(f, w.sent, n, l);
    var l' := l.(hand := Idle, passed := if l.hand.drop then l.passed else l.passed + [l.hand.msg]);
    if !l.hand.drop { PassedMore(f, l.passed, l.hand.msg); }
    StepKeeps(w, n, l', w.net);
  }

  lemma PassedMore(f: KeyFn, passed: seq<Message>, m: Message)
    requires DistinctKeys(f, passed) && KeyFor(f, m) !in PassedKeys(f, passed)
    ensures DistinctKeys(f, passed + [m]) && PassedKeys(f, passed + [m]) == PassedKeys(f, passed) + {KeyFor(f, m)}
  {
    var q := passed + [m];
    forall x ensures x in q <==> x in passed || x == m {}
    forall i, j | 0 <= i < j < |q| ensures KeyFor(f, q[i]) != KeyFor(f, q[j]) {
      assert q[i] == passed[i] && passed[i] in passed;
    }
  }

  // ---------------------------------------------------------------- runs

  lemma NextKeeps(w: World, e: Event)
    requires Inv(w) && Enabled(w, e)
    ensures Inv(Next(w, e))
  {
    match e
    case Transmit(n, m) => TransmitKeeps(w, n, m);
    case Buffer(n, m, now) => BufferKeeps(w, n, m, now);
    case Monitor(n, now, order) => MonitorKeeps(w, n, now, order);
    case Resend(n) => ResendKeeps(w, n);
    case Receive(m) => if m.command == Ack { ReceiveAckKeeps(w, m); } else { ReceiveKeeps(w, m); }
    case SendAck(n) => SendAckKeeps(w, n);
    case PassUp(n) => PassUpKeeps(w, n);
  }

  ghost predicate Possible(w: World, es: seq<Event>)
    decreases |es|
  {
    es != [] ==> Enabled(w, es[0]) && Possible(Next(w, es[0]), es[1..])
  }

  ghost function After(w: World, es: seq<Event>): World
    requires Possible(w, es)
    decreases |es|
  {
    if es == [] then w else After(Next(w, es[0]), es[1..])
  }

  lemma {:induction false} RunKeeps(w: World, es: seq<Event>)
    requires Inv(w) && Possible(w, es)
    ensures Inv(After(w, es)) && After(w, es).getKey == w.getKey
    decreases |es|
  {
    if es != [] {
      NextKeeps(w, es[0]);
      RunKeeps(Next(w, es[0]), es[1..]);
    }
  }

  ghost function Start(nodes: set<Node>, timeout: int, maxNumRetry: nat): World {
    World(KeyWord, timeout, maxNumRetry, map n | n in nodes ::
      Local(State(map[], {}), multiset{}, [], Idle, [], true), {}, {})
  }

  ghost function Reached(nodes: set<Node>, timeout: int, maxNumRetry: nat, es: seq<Event>): World
    requires Possible(Start(nodes, timeout, maxNumRetry), es)
  {
    After(Start(nodes, timeout, maxNumRetry), es)
  }

  lemma StartOk(nodes: set<Node>, timeout: int, maxNumRetry: nat)
    requires NOBODY !in nodes
    ensures Inv(Start(nodes, timeout, maxNumRetry))
  {
    KeyWordRespects();
  }

  // In every run, a node passes each message up at most once, and only messages
  // that were sent to it, as they were sent, with timestamps other than 32767.
  lemma PassedAtMostOnce(nodes: set<Node>, timeout: int, maxNumRetry: nat, es: seq<Event>, n: Node)
    requires NOBODY !in nodes && Possible(Start(nodes, timeout, maxNumRetry), es)
    requires n in Reached(nodes, timeout, maxNumRetry, es).at
    ensures var w := Reached(nodes, timeout, maxNumRetry, es);
      && (forall m :: m in w.at[n].passed ==> m in w.sent && m.recver == n && m.timestamp != 32767)
      && (forall i, j :: 0 <= i < j < |w.at[n].passed| ==> Id(w.at[n].passed[i]) != Id(w.at[n].passed[j]))
  {
    var w := Reached(nodes, timeout, maxNumRetry, es);
    StartOk(nodes, timeout, maxNumRetry);
    RunKeeps(Start(nodes, timeout, maxNumRetry), es);
    var passed := w.at[n].passed;
    assert ReceiverOk(w.getKey, w.sent, n, w.at[n]);
    forall m | m in passed ensures ReceivedOk(w.sent, n, m) {}
    forall i, j | 0 <= i < j < |passed| ensures Id(passed[i]) != Id(passed[j]) {
      var a, b := passed[i], passed[j];
      assert ReceivedOk(w.sent, n, a) && ReceivedOk(w.sent, n, b);
      assert SentOk(w.at.Keys, a) && SentOk(w.at.Keys, b);
      assert SameKey(w.getKey, a.sender, a, b.sender, b);
    }
  }

  // A step of sending or receiving ends the process exactly at timestamp 32767.
  lemma FailsExactly(w: World, n: Node, m: Message, now: int)
    requires Inv(w)
    ensures Enabled(w, Buffer(n, m, now)) ==> (Next(w, Buffer(n, m, now)).at[n].alive <==> m.timestamp != 32767)
    ensures Enabled(w, Receive(m)) && m.command != Ack ==>
      (Next(w, Receive(m)).at[m.recver].alive <==> m.timestamp != 32767)
  {
    if Enabled(w, Buffer(n, m, now)) {
      assert SenderOk(w.getKey, w.sent, n, w.at[n]);
      KeyOfStamped(w, n, m);
    }
    if Enabled(w, Receive(m)) && m.command != Ack {
      assert NetOk(w, m) && SentOk(w.at.Keys, m);
    }
  }

  // In every run, whenever an ack takes a message out of a buffer, the message's
  // receiver has recorded exactly that message, unless another one conflicts with it:
  // it has passed it up or is about to.
  lemma AckedIsReceived(nodes: set<Node>, timeout: int, maxNumRetry: nat, es: seq<Event>, ack: Message)
    requires NOBODY !in nodes && Possible(Start(nodes, timeout, maxNumRetry), es)
    requires var w := Reached(nodes, timeout, maxNumRetry, es);
      Enabled(w, Receive(ack)) && ack.command == Ack && ack.msgSig in w.at[ack.recver].state.sendBuff
    ensures var w := Reached(nodes, timeout, maxNumRetry, es);
      var m := Stamped(ack.recver, w.at[ack.recver].state.sendBuff[ack.msgSig].msg);
      m in w.sent && m.recver in w.at && (Alone(KeyWord, w.sent, m) ==> Has(w.at[m.recver], m))
  {
    var w := Reached(nodes, timeout, maxNumRetry, es);
    StartOk(nodes, timeout, maxNumRetry);
    RunKeeps(Start(nodes, timeout, maxNumRetry), es);
    var n := ack.recver;
    var raw := w.at[n].state.sendBuff[ack.msgSig].msg;
    var m := Stamped(n, raw);
    assert SenderOk(w.getKey, w.sent, n, w.at[n]);
    KeyOfStamped(w, n, raw);
    assert SentOk(w.at.Keys, m);
    if Alone(w.getKey, w.sent, m) {
      AckIsTrue(w, ack, m);
      SameKeySame(w, m);
    }
  }

  // A sent message whose key is recorded is itself the one that was recorded.
  lemma SameKeySame(w: World, m: Message)
    requires Inv(w) && m.recver in w.at && KeyFor(w.getKey, m) in w.at[m.recver].state.acked
    requires Alone(w.getKey, w.sent, m)
    ensures Has(w.at[m.recver], m)
  {
    var o := RecordedFor(w, m.recver, KeyFor(w.getKey, m));
    assert !Conflicts(w.getKey, o, m);
  }

  // In every run, a message that has been sent is never forgotten: it has been
  // passed up, is about to be, or is still buffered (or being sent) at its sender.
  // The exceptions are a message with which another one conflicts, and timestamp
  // 32767: such a message is never passed up, and its sender fails once it has
  // transmitted it.
  lemma NeverForgotten(nodes: set<Node>, timeout: int, maxNumRetry: nat, es: seq<Event>, m: Message)
    requires NOBODY !in nodes && Possible(Start(nodes, timeout, maxNumRetry), es)
    requires m in Reached(nodes, timeout, maxNumRetry, es).sent
    ensures var w := Reached(nodes, timeout, maxNumRetry, es);
      && m.recver in w.at && m.sender in w.at
      && var sender, recver := w.at[m.sender], w.at[m.recver];
         if m.timestamp == 32767 then !Has(recver, m) && (MidSend(sender, m) || !sender.alive)
         else
           || Has(recver, m) || MidSend(sender, m) || KeyWord(m.sender, m) in sender.state.sendBuff
           || !Alone(KeyWord, w.sent, m)
  {
    var w := Reached(nodes, timeout, maxNumRetry, es);
    StartOk(nodes, timeout, maxNumRetry);
    RunKeeps(Start(nodes, timeout, maxNumRetry), es);
    assert SentOk(w.at.Keys, m) && Kept(w, m);
    assert ReceiverOk(w.getKey, w.sent, m.recver, w.at[m.recver]);
    assert m in w.at[m.recver].passed ==> ReceivedOk(w.sent, m.recver, m);
    if KeyFor(w.getKey, m) in w.at[m.recver].state.acked && Alone(w.getKey, w.sent, m) { SameKeySame(w, m); }
  }

  // ---------------------------------------------------------------- retries

  // A buffered message has been resent less than the maximum number of times.
  ghost predicate RetriesAt(w: World, n: Node, k: Key) {
    n in w.at && k in w.at[n].state.sendBuff ==>
      var r := w.at[n].state.sendBuff[k].numRetry; r == 0 || r < w.maxNumRetry
  }

  ghost predicate RetriesOk(w: World) {
    forall n, k {:trigger RetriesAt(w, n, k)} :: RetriesAt(w, n, k)
  }

  lemma NextRetries(w: World, e: Event, n: Node, k: Key)
    requires RetriesOk(w) && Enabled(w, e)
    ensures RetriesAt(Next(w, e), n, k) && Next(w, e).maxNumRetry == w.maxNumRetry
  {
    assert RetriesAt(w, n, k);
  }

  // In every run no message is resent as often as the limit says: the pass that would
  // do so ends the process.
  lemma {:induction false} RetriesBounded(w: World, es: seq<Event>)
    requires RetriesOk(w) && Possible(w, es)
    ensures RetriesOk(After(w, es)) && After(w, es).maxNumRetry == w.maxNumRetry
    decreases |es|
  {
    if es != [] {
      var w' := Next(w, es[0]);
      forall n, k ensures RetriesAt(w', n, k) && w'.maxNumRetry == w.maxNumRetry { NextRetries(w, es[0], n, k); }
      RetriesBounded(w', es[1..]);
    }
  }
}
