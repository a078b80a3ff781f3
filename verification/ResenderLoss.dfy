/**
  When the resender (comm/src/resender.h) can lose a message: exactly when another
  message with its key is sent from the same node or to the same node.
 */
module ResenderLoss {
  import opened Prelude
  import opened Resender
  import opened ResenderRuns

  // Nobody has the message any more: its receiver has not taken it, and its sender
  // would not send it again.
  ghost predicate Forgotten(w: World, m: Message) {
    && m in w.sent && m.recver in w.at && m.sender in w.at && !Has(w.at[m.recver], m)
    && !MidSend(w.at[m.sender], m) && w.at[m.sender].resend == []
    && KeyFor(w.getKey, m) !in w.at[m.sender].state.sendBuff
  }

  // Messages that the nodes may send each other.
  ghost predicate Sendable(nodes: set<Node>, m: Message) {
    m.command == Other && m.sender in nodes && m.recver in nodes
  }

  // A run that sends messages of the traffic only and forgets m.
  ghost predicate Loses(nodes: set<Node>, timeout: int, retries: nat, traffic: set<Message>, m: Message,
                        es: seq<Event>) {
    && Possible(Start(nodes, timeout, retries), es)
    && Reached(nodes, timeout, retries, es).sent <= traffic
    && Forgotten(Reached(nodes, timeout, retries, es), m)
  }

  ghost predicate CanLose(nodes: set<Node>, timeout: int, retries: nat, traffic: set<Message>, m: Message) {
    exists es :: Loses(nodes, timeout, retries, traffic, m, es)
  }

  // ---------------------------------------------------------------- pieces of a run

  lemma {:induction false} Join(w: World, es: seq<Event>, more: seq<Event>)
    requires Possible(w, es) && Possible(After(w, es), more)
    ensures Possible(w, es + more) && After(w, es + more) == After(After(w, es), more)
    decreases |es|
  {
    if es == [] {
      assert es + more == more;
    } else {
      var all := es + more;
      assert all[0] == es[0] && all[1..] == es[1..] + more;
      Join(Next(w, es[0]), es[1..], more);
    }
  }

  lemma One(w: World, e: Event)
    requires Enabled(w, e)
    ensures Possible(w, [e]) && After(w, [e]) == Next(w, e)
  {
    assert [e][1..] == [];
  }

  lemma Then(w: World, es: seq<Event>, e: Event)
    requires Possible(w, es) && Enabled(After(w, es), e)
    ensures Possible(w, es + [e]) && After(w, es + [e]) == Next(After(w, es), e)
  {
    One(After(w, es), e);
    Join(w, es, [e]);
  }

  // The receiver's state after a message has been received, acked and dealt with.
  ghost function Taken(f: KeyFn, l: Local, m: Message): Local {
    var k := KeyFor(f, m);
    l.(state := l.state.(acked := l.state.acked + {k}),
       passed := if k in l.state.acked then l.passed else l.passed + [m])
  }

  ghost predicate CanTake(w: World, m: Message) {
    && Respects(w.getKey) && m in w.net && Up(w, m.recver) && w.at[m.recver].hand == Idle
    && m.command == Other && m.timestamp != EMPTY && m.sender != NOBODY
  }

  ghost function AckOf(f: KeyFn, m: Message): Message {
    AckFor(m, KeyFor(f, m))
  }

  ghost function Delivered(w: World, m: Message): World
    requires m.recver in w.at
  {
    w.(at := w.at[m.recver := Taken(w.getKey, w.at[m.recver], m)], net := w.net + {AckOf(w.getKey, m)})
  }

  lemma Deliver(w: World, m: Message) returns (es: seq<Event>)
    requires CanTake(w, m)
    ensures Possible(w, es) && After(w, es) == Delivered(w, m)
  {
    var r := m.recver;
    One(w, Receive(m));
    Then(w, [Receive(m)], SendAck(r));
    Then(w, [Receive(m)] + [SendAck(r)], PassUp(r));
    es := [Receive(m)] + [SendAck(r)] + [PassUp(r)];
    var l := w.at[r];
    var at := w.at[r := Taken(w.getKey, l, m)];
    assert SameKey(w.getKey, r, m, m.sender, m);
    assert After(w, es).at[r] == Taken(w.getKey, l, m);
    assert After(w, es).at == at;
  }

  ghost function Holding(f: KeyFn, l: Local, m: Message): Local {
    l.(state := Outgoing(l.state, m, KeyFor(f, m), 0))
  }

  ghost function Posted(w: World, m: Message): World
    requires m.sender in w.at
  {
    w.(at := w.at[m.sender := Holding(w.getKey, w.at[m.sender], m)], net := w.net + {m}, sent := w.sent + {m})
  }

  lemma Post(w: World, m: Message) returns (es: seq<Event>)
    requires Respects(w.getKey) && Up(w, m.sender) && MaySend(w, m.sender, m) && m.timestamp != EMPTY
    ensures Possible(w, es) && After(w, es) == Posted(w, m)
  {
    var n := m.sender;
    One(w, Transmit(n, m));
    Then(w, [Transmit(n, m)], Buffer(n, m, 0));
    es := [Transmit(n, m)] + [Buffer(n, m, 0)];
    var l := w.at[n];
    assert l.sending + multiset{m} - multiset{m} == l.sending;
    assert After(w, es).at[n] == Holding(w.getKey, l, m);
    assert After(w, es).at == w.at[n := Holding(w.getKey, l, m)];
  }

  // ---------------------------------------------------------------- a lossy run

  // One message has been passed up, and nobody is busy.
  ghost predicate Passed(w: World, nodes: set<Node>, a: Message) {
    Respects(w.getKey) && AckOf(w.getKey, a) in w.net && AllPassed(w.getKey, w.at, nodes, a)
  }

  ghost predicate AllPassed(f: KeyFn, at: map<Node, Local>, nodes: set<Node>, a: Message) {
    at.Keys == nodes && forall p {:trigger at[p]} :: p in nodes ==> PassedAt(f, at[p], p, a)
  }

  ghost predicate PassedAt(f: KeyFn, l: Local, p: Node, a: Message) {
    && l.hand == Idle && l.alive && l.resend == []
    && l.sending == (if p == a.sender then multiset{a} else multiset{})
    && l.passed == (if p == a.recver then [a] else [])
    && l.state.acked == (if p == a.recver then {KeyFor(f, a)} else {})
  }

  // So is another one sent and buffered.
  ghost predicate Prepared(w: World, nodes: set<Node>, a: Message, b: Message) {
    Passed(w, nodes, a) && w.sent == {a, b} && b in w.net && Sendable(nodes, a) && Sendable(nodes, b)
  }

  ghost function Transmitted(nodes: set<Node>, timeout: int, retries: nat, a: Message): World
    requires a.sender in nodes
  {
    var w := Start(nodes, timeout, retries);
    Put(w, a.sender, w.at[a.sender].(sending := multiset{a})).(net := {a}, sent := {a})
  }

  lemma Transmits(nodes: set<Node>, timeout: int, retries: nat, a: Message)
    requires Sendable(nodes, a)
    ensures Enabled(Start(nodes, timeout, retries), Transmit(a.sender, a))
    ensures Next(Start(nodes, timeout, retries), Transmit(a.sender, a)) == Transmitted(nodes, timeout, retries, a)
  {
    var w := Start(nodes, timeout, retries);
    assert Stamped(a.sender, a) == a && w.at[a.sender].sending + multiset{a} == multiset{a};
    assert w.net + {a} == {a} && w.sent + {a} == {a};
  }

  lemma FirstPassed(nodes: set<Node>, timeout: int, retries: nat, a: Message)
    requires NOBODY !in nodes && Sendable(nodes, a) && a.timestamp != EMPTY
    ensures var w := Transmitted(nodes, timeout, retries, a); CanTake(w, a) && Passed(Delivered(w, a), nodes, a)
  {
    KeyWordRespects();
    var w := Transmitted(nodes, timeout, retries, a);
    var w' := Delivered(w, a);
    forall p | p in nodes ensures PassedAt(w.getKey, w'.at[p], p, a) {
      assert [] + [a] == [a];
    }
  }

  lemma PassFirst(nodes: set<Node>, timeout: int, retries: nat, a: Message) returns (es: seq<Event>)
    requires NOBODY !in nodes && Sendable(nodes, a) && a.timestamp != EMPTY
    ensures Possible(Start(nodes, timeout, retries), es)
    ensures Reached(nodes, timeout, retries, es) == Delivered(Transmitted(nodes, timeout, retries, a), a)
  {
    var w, e := Start(nodes, timeout, retries), Transmit(a.sender, a);
    Transmits(nodes, timeout, retries, a);
    One(w, e);
    FirstPassed(nodes, timeout, retries, a);
    var deliver := Deliver(Transmitted(nodes, timeout, retries, a), a);
    Join(w, [e], deliver);
    es := [e] + deliver;
  }

  lemma HoldingKeeps(f: KeyFn, at: map<Node, Local>, nodes: set<Node>, n: Node, a: Message, b: Message)
    requires AllPassed(f, at, nodes, a) && n in nodes
    ensures AllPassed(f, at[n := Holding(f, at[n], b)], nodes, a)
  {
    var l := at[n];
    assert PassedAt(f, l, n, a);
    assert PassedAt(f, Holding(f, l, b), n, a);
  }

  lemma PostKeeps(w: World, nodes: set<Node>, a: Message, b: Message)
    requires Passed(w, nodes, a) && w.sent == {a} && Sendable(nodes, a) && Sendable(nodes, b)
    ensures Prepared(Posted(w, b), nodes, a, b)
  {
    HoldingKeeps(w.getKey, w.at, nodes, b.sender, a, b);
  }

  lemma Prepare(nodes: set<Node>, timeout: int, retries: nat, a: Message, b: Message) returns (es: seq<Event>)
    requires NOBODY !in nodes && Sendable(nodes, a) && Sendable(nodes, b)
    requires a.timestamp != EMPTY && b.timestamp != EMPTY
    ensures Possible(Start(nodes, timeout, retries), es)
    ensures Prepared(Reached(nodes, timeout, retries, es), nodes, a, b)
    ensures Reached(nodes, timeout, retries, es).getKey == KeyWord
  {
    var w := Start(nodes, timeout, retries);
    es := PassFirst(nodes, timeout, retries, a);
    FirstPassed(nodes, timeout, retries, a);
    PostKeeps(After(w, es), nodes, a, b);
    var post := Post(After(w, es), b);
    Join(w, es, post);
    es := es + post;
  }

  // The ack that empties the buffer of b's sender.
  lemma AckComes(w: World, nodes: set<Node>, a: Message, b: Message, o: Message) returns (es: seq<Event>)
    requires NOBODY !in nodes && Prepared(w, nodes, a, b) && a != b
    requires o.sender == b.sender && AckOf(w.getKey, o) in w.net && KeyFor(w.getKey, o) == KeyFor(w.getKey, b)
    ensures Possible(w, es) && After(w, es).sent == w.sent && Forgotten(After(w, es), b)
  {
    es := [Receive(AckOf(w.getKey, o))];
    One(w, es[0]);
  }

  lemma TakenKeeps(f: KeyFn, at: map<Node, Local>, nodes: set<Node>, a: Message, b: Message)
    requires AllPassed(f, at, nodes, a) && a.recver in nodes && KeyFor(f, b) == KeyFor(f, a)
    ensures AllPassed(f, at[a.recver := Taken(f, at[a.recver], b)], nodes, a)
  {
    var l := at[a.recver];
    assert PassedAt(f, l, a.recver, a);
    assert PassedAt(f, Taken(f, l, b), a.recver, a);
  }

  // The second message is taken for a duplicate of the first.
  lemma Drops(w: World, nodes: set<Node>, a: Message, b: Message) returns (es: seq<Event>)
    requires Prepared(w, nodes, a, b) && a != b && KeyFor(w.getKey, a) == KeyFor(w.getKey, b)
    requires b.recver == a.recver && b.timestamp != EMPTY && b.sender != NOBODY
    ensures Possible(w, es) && After(w, es).getKey == w.getKey
    ensures Prepared(After(w, es), nodes, a, b) && AckOf(w.getKey, b) in After(w, es).net
  {
    TakenKeeps(w.getKey, w.at, nodes, a, b);
    es := Deliver(w, b);
  }

  lemma LossyRun(nodes: set<Node>, timeout: int, retries: nat, a: Message, b: Message) returns (es: seq<Event>)
    requires NOBODY !in nodes && Sendable(nodes, a) && Sendable(nodes, b)
    requires Conflicts(KeyWord, a, b) && b.timestamp != EMPTY
    ensures Loses(nodes, timeout, retries, {a, b}, b, es)
  {
    var w := Start(nodes, timeout, retries);
    es := Prepare(nodes, timeout, retries, a, b);
    if a.sender != b.sender {
      var drop := Drops(After(w, es), nodes, a, b);
      Join(w, es, drop);
      es := es + drop;
      var rest := AckComes(After(w, es), nodes, a, b, b);
      Join(w, es, rest);
      es := es + rest;
    } else {
      var rest := AckComes(After(w, es), nodes, a, b, a);
      Join(w, es, rest);
      es := es + rest;
    }
  }

  // A message of some traffic can be lost exactly when another one of the traffic
  // conflicts with it.
  lemma LostIff(nodes: set<Node>, timeout: int, retries: nat, traffic: set<Message>, m: Message)
    requires NOBODY !in nodes && m in traffic && m.timestamp != EMPTY
    requires forall o :: o in traffic ==> Sendable(nodes, o)
    ensures CanLose(nodes, timeout, retries, traffic, m) <==> !Alone(KeyWord, traffic, m)
  {
    if CanLose(nodes, timeout, retries, traffic, m) {
      var es :| Loses(nodes, timeout, retries, traffic, m, es);
      NeverForgotten(nodes, timeout, retries, es, m);
      StartOk(nodes, timeout, retries);
      RunKeeps(Start(nodes, timeout, retries), es);
      assert Alone(KeyWord, traffic, m) ==> Alone(KeyWord, Reached(nodes, timeout, retries, es).sent, m);
    }
    if !Alone(KeyWord, traffic, m) {
      var o :| o in traffic && Conflicts(KeyWord, o, m);
      assert {o, m} <= traffic;
      var es := LossyRun(nodes, timeout, retries, o, m);
      assert Loses(nodes, timeout, retries, traffic, m, es);
    }
  }

  // ---------------------------------------------------------------- nodes

  // Messages between the nodes that differ in what identifies them, with 16-bit
  // applications and early timestamps.
  ghost predicate Proper(nodes: set<Node>, traffic: set<Message>) {
    && (forall m :: m in traffic ==> Sendable(nodes, m) && Among(nodes, Id(m)) && m.timestamp != EMPTY)
    && forall a, b {:trigger Id(a), Id(b)} :: a in traffic && b in traffic && Id(a) == Id(b) ==> a == b
  }

  ghost predicate LosesSome(nodes: set<Node>, timeout: int, retries: nat, traffic: set<Message>) {
    exists m :: m in traffic && CanLose(nodes, timeout, retries, traffic, m)
  }

  ghost predicate Reliable(nodes: set<Node>, timeout: int, retries: nat) {
    forall traffic :: Proper(nodes, traffic) ==> !LosesSome(nodes, timeout, retries, traffic)
  }

  lemma KeyOfIdent(m: Message)
    ensures KeyFor(KeyWord, m) == IdentKey(Id(m))
  {
  }

  lemma NoConflicts(nodes: set<Node>, traffic: set<Message>, o: Message, m: Message)
    requires NOBODY !in nodes && DistinctCuts(nodes) && Proper(nodes, traffic) && o in traffic && m in traffic
    ensures !Conflicts(KeyWord, o, m)
  {
    NodesSeparate(nodes);
    KeyOfIdent(o);
    KeyOfIdent(m);
    assert Among(nodes, Id(o)) && Among(nodes, Id(m));
  }

  function Plain(sender: Node, recver: Node): Message {
    Message(Other, 0, sender, recver, 0, true, Key(0), [])
  }

  lemma SameCutLoses(nodes: set<Node>, timeout: int, retries: nat, n: Node, m: Node)
    requires NOBODY !in nodes && n in nodes && m in nodes && n != m && n.id & 0xff == m.id & 0xff
    ensures Proper(nodes, {Plain(n, n), Plain(m, n)})
    ensures LosesSome(nodes, timeout, retries, {Plain(n, n), Plain(m, n)})
  {
    var a, b := Plain(n, n), Plain(m, n);
    SendersCollide(n, m, n, 0, true);
    KeyOfIdent(a);
    KeyOfIdent(b);
    assert Id(a) == Ident(0, n, n, 0, true) && Id(b) == Ident(0, m, n, 0, true);
    assert Conflicts(KeyWord, a, b);
    LostIff(nodes, timeout, retries, {a, b}, b);
  }

  // The resender loses no message of proper traffic exactly when no two node ids agree
  // in their lowest eight bits.
  lemma ReliableIff(nodes: set<Node>, timeout: int, retries: nat)
    requires NOBODY !in nodes
    ensures Reliable(nodes, timeout, retries) <==> DistinctCuts(nodes)
  {
    if DistinctCuts(nodes) {
      forall traffic | Proper(nodes, traffic) ensures !LosesSome(nodes, timeout, retries, traffic) {
        forall m | m in traffic ensures !CanLose(nodes, timeout, retries, traffic, m) {
          forall o | o in traffic ensures !Conflicts(KeyWord, o, m) { NoConflicts(nodes, traffic, o, m); }
          LostIff(nodes, timeout, retries, traffic, m);
        }
      }
    } else {
      var n, m :| n in nodes && m in nodes && n.id & 0xff == m.id & 0xff && n != m;
      SameCutLoses(nodes, timeout, retries, n, m);
    }
  }
}
