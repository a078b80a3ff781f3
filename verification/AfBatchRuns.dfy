/** Runs of the AF server over interleaved batches of any number of workers. */
module AfBatchRuns {
  import opened Prelude
  import opened AfBatch

  // The messages of one batch, as one server receives them.
  ghost predicate Batch<T>(ms: seq<Msg<T>>) {
    && WellFlagged(ms)
    && forall j :: 0 <= j < |ms| ==> ms[j].ts == ms[0].ts + j && ms[j].sender == ms[0].sender
  }

  // A sender never uses a timestamp in two batches.
  ghost predicate Apart<T>(a: seq<Msg<T>>, b: seq<Msg<T>>)
    requires a != [] && b != []
  {
    a[0].sender == b[0].sender ==> a[0].ts + |a| <= b[0].ts || b[0].ts + |b| <= a[0].ts
  }

  ghost predicate Batches<T>(bs: seq<seq<Msg<T>>>) {
    && (forall b :: 0 <= b < |bs| ==> Batch(bs[b]))
    && (forall b, c :: 0 <= b < |bs| && 0 <= c < |bs| && b != c ==> Apart(bs[b], bs[c]))
  }

  // The batch a server should have collected from these messages.
  ghost function Assemble<T>(ms: seq<Msg<T>>): (a: Meta<T>)
    requires ms != []
    ensures a.lastTs == ms[|ms| - 1].ts && a.sender == ms[0].sender && a.single == (ms[0].cmd == Single)
  {
    var n := |ms| - 1;
    if n == 0 then NewMeta(ms[0].sender, ms[0].cmd == Single).Add(ms[0])
    else Assemble(ms[..n]).Add(ms[n])
  }

  // A schedule delivers, step by step, the next message of some batch;
  // p counts what has been delivered of each.
  ghost predicate Schedule<T>(bs: seq<seq<Msg<T>>>, p: seq<nat>, sched: seq<nat>)
    requires |p| == |bs|
    decreases |sched|
  {
    sched != [] ==>
      && sched[0] < |bs| && p[sched[0]] < |bs[sched[0]]|
      && Schedule(bs, p[sched[0] := p[sched[0]] + 1], sched[1..])
  }

  ghost function Progress<T>(bs: seq<seq<Msg<T>>>, p: seq<nat>, sched: seq<nat>): (p': seq<nat>)
    requires |p| == |bs| && Schedule(bs, p, sched)
    ensures |p'| == |bs|
    decreases |sched|
  {
    if sched == [] then p else Progress(bs, p[sched[0] := p[sched[0]] + 1], sched[1..])
  }

  ghost function Run<T>(s: State<T>, bs: seq<seq<Msg<T>>>, p: seq<nat>, sched: seq<nat>): Option<State<T>>
    requires |p| == |bs| && Schedule(bs, p, sched)
    decreases |sched|
  {
    if sched == [] then Some(s)
    else
      var b := sched[0];
      match Handle(s, bs[b][p[b]])
      case None => None
      case Some(s') => Run(s', bs, p[b := p[b] + 1], sched[1..])
  }

  // ---------------------------------------------------------------- invariant

  // Which batch each entry of the server state stands for.
  datatype Places = Places(aside: seq<nat>, current: map<int, nat>, done: seq<nat>)

  ghost predicate Open<T>(bs: seq<seq<Msg<T>>>, p: seq<nat>, b: nat) {
    b < |bs| == |p| && 0 < p[b] < |bs[b]|
  }

  ghost function Part<T>(bs: seq<seq<Msg<T>>>, p: seq<nat>, b: nat): Meta<T>
    requires Open(bs, p, b)
  {
    Assemble(bs[b][..p[b]])
  }

  ghost predicate AsideAt<T>(s: State<T>, bs: seq<seq<Msg<T>>>, p: seq<nat>, w: Places, i: nat)
    requires |w.aside| == |s.reorder|
  {
    i < |w.aside| ==> Open(bs, p, w.aside[i]) && s.reorder[i] == Part(bs, p, w.aside[i])
  }

  ghost predicate CurrentAt<T>(s: State<T>, bs: seq<seq<Msg<T>>>, p: seq<nat>, w: Places, x: int)
    requires w.current.Keys == s.current.Keys
  {
    x in w.current ==>
      var b := w.current[x];
      Open(bs, p, b) && bs[b][0].sender == x && s.current[x] == Part(bs, p, b) && b !in w.aside
  }

  ghost predicate DoneAt<T>(s: State<T>, bs: seq<seq<Msg<T>>>, p: seq<nat>, w: Places, k: nat)
    requires |w.done| == |s.handled| && |p| == |bs|
  {
    k < |w.done| ==>
      var b := w.done[k]; b < |bs| && bs[b] != [] && p[b] == |bs[b]| && s.handled[k] == Assemble(bs[b])
  }

  ghost predicate Placed<T>(bs: seq<seq<Msg<T>>>, p: seq<nat>, w: Places, b: nat) {
    b < |bs| == |p| ==>
      && p[b] <= |bs[b]|
      && (p[b] == |bs[b]| ==> b in w.done)
      && (0 < p[b] < |bs[b]| ==>
            b in w.aside || (bs[b][0].sender in w.current && w.current[bs[b][0].sender] == b))
  }

  ghost predicate Sizes<T>(s: State<T>, bs: seq<seq<Msg<T>>>, p: seq<nat>, w: Places) {
    && |p| == |bs| && |w.aside| == |s.reorder| && w.current.Keys == s.current.Keys && |w.done| == |s.handled|
    && Distinct(w.aside) && Distinct(w.done)
  }

  // Every entry of the state is the arrived part of one batch, every open batch
  // has one entry, and exactly the complete batches have been handled.
  ghost predicate Inv<T>(s: State<T>, bs: seq<seq<Msg<T>>>, p: seq<nat>, w: Places) {
    && Sizes(s, bs, p, w)
    && (forall i {:trigger AsideAt(s, bs, p, w, i)} :: AsideAt(s, bs, p, w, i))
    && (forall x {:trigger CurrentAt(s, bs, p, w, x)} :: CurrentAt(s, bs, p, w, x))
    && (forall k {:trigger DoneAt(s, bs, p, w, k)} :: DoneAt(s, bs, p, w, k))
    && (forall b {:trigger Placed(bs, p, w, b)} :: Placed(bs, p, w, b))
  }

  // ---------------------------------------------------------------- steps

  // A batch set aside waits for the next message of an open batch exactly when
  // it is that batch.
  lemma AwaitsOwn<T>(bs: seq<seq<Msg<T>>>, p: seq<nat>, b: nat, c: nat)
    requires Batches(bs) && Open(bs, p, b) && Open(bs, p, c)
    ensures Awaits(Part(bs, p, c), bs[b][p[b]]) <==> b == c
  {
    assert Batch(bs[b]) && Batch(bs[c]);
    var m, a := bs[b][p[b]], Part(bs, p, c);
    assert m.ts == bs[b][0].ts + p[b] && m.sender == bs[b][0].sender;
    assert a.lastTs == bs[c][p[c] - 1].ts == bs[c][0].ts + p[c] - 1 && a.sender == bs[c][0].sender;
    assert b != c ==> Apart(bs[b], bs[c]);
  }

  lemma PartGrows<T>(bs: seq<seq<Msg<T>>>, p: seq<nat>, b: nat)
    requires Open(bs, p, b)
    ensures Part(bs, p, b).Add(bs[b][p[b]]) == Assemble(bs[b][..p[b] + 1])
    ensures p[b] + 1 == |bs[b]| ==> bs[b][..p[b] + 1] == bs[b]
  {
    assert bs[b][..p[b] + 1][..p[b]] == bs[b][..p[b]];
  }

  // A batch with messages left is not done.
  lemma NotDone<T>(s: State<T>, bs: seq<seq<Msg<T>>>, p: seq<nat>, w: Places, b: nat)
    requires Inv(s, bs, p, w) && b < |bs| && p[b] < |bs[b]|
    ensures b !in w.done && Distinct(w.done + [b])
  {
    forall k | 0 <= k < |w.done| ensures w.done[k] != b { assert DoneAt(s, bs, p, w, k); }
  }

  // A batch without arrived messages has no entry.
  lemma NotOpen<T>(s: State<T>, bs: seq<seq<Msg<T>>>, p: seq<nat>, w: Places, b: nat)
    requires Inv(s, bs, p, w) && b < |bs| && p[b] == 0
    ensures b !in w.aside && forall x :: x in w.current ==> w.current[x] != b
  {
    forall i | 0 <= i < |w.aside| ensures w.aside[i] != b { assert AsideAt(s, bs, p, w, i); }
    forall x | x in w.current ensures w.current[x] != b { assert CurrentAt(s, bs, p, w, x); }
  }

  lemma StepSingle<T>(s: State<T>, bs: seq<seq<Msg<T>>>, p: seq<nat>, w: Places, b: nat) returns (w': Places)
    requires Batches(bs) && Inv(s, bs, p, w) && b < |bs| && p[b] == 0 && bs[b] != [] && bs[b][0].cmd == Single
    ensures Handle(s, bs[b][0]).Some?
    ensures Inv(Handle(s, bs[b][0]).value, bs, p[b := 1], w')
  {
    assert Batch(bs[b]);
    w' := w.(done := w.done + [b]);
    var s', p' := Handle(s, bs[b][0]).value, p[b := 1];
    NotDone(s, bs, p, w, b);
    NotOpen(s, bs, p, w, b);
    assert |bs[b]| == 1 && Assemble(bs[b]) == NewMeta(bs[b][0].sender, true).Add(bs[b][0]);
    forall i ensures AsideAt(s', bs, p', w', i) { assert AsideAt(s, bs, p, w, i); }
    forall x ensures CurrentAt(s', bs, p', w', x) { assert CurrentAt(s, bs, p, w, x); }
    forall k ensures DoneAt(s', bs, p', w', k) { assert DoneAt(s, bs, p, w, k); }
    forall c ensures Placed(bs, p', w', c) { assert Placed(bs, p, w, c); }
  }

  lemma StepStart<T>(s: State<T>, bs: seq<seq<Msg<T>>>, p: seq<nat>, w: Places, b: nat) returns (w': Places)
    requires Batches(bs) && Inv(s, bs, p, w) && b < |bs| && p[b] == 0 && bs[b] != [] && bs[b][0].cmd == Start
    ensures Handle(s, bs[b][0]).Some?
    ensures Inv(Handle(s, bs[b][0]).value, bs, p[b := 1], w')
  {
    assert Batch(bs[b]);
    var x := bs[b][0].sender;
    w' := w.(aside := if x in w.current then w.aside + [w.current[x]] else w.aside, current := w.current[x := b]);
    var s', p' := Handle(s, bs[b][0]).value, p[b := 1];
    NotOpen(s, bs, p, w, b);
    assert CurrentAt(s, bs, p, w, x);
    assert bs[b][..1] == [bs[b][0]];
    assert Part(bs, p', b) == NewMeta(x, false).Add(bs[b][0]);
    forall i: nat ensures AsideAt(s', bs, p', w', i) {
      if i < |w.aside| { assert AsideAt(s, bs, p, w, i); }
    }
    forall y ensures CurrentAt(s', bs, p', w', y) { assert CurrentAt(s, bs, p, w, y); }
    forall k ensures DoneAt(s', bs, p', w', k) { assert DoneAt(s, bs, p, w, k); }
    forall c: nat ensures Placed(bs, p', w', c) {
      assert Placed(bs, p, w, c);
      if x in w.current && c == w.current[x] { assert w'.aside[|w.aside|] == c; }
    }
  }

  // MIDDLE or END of a batch that was set aside.
  lemma StepAside<T>(s: State<T>, bs: seq<seq<Msg<T>>>, p: seq<nat>, w: Places, b: nat, i: nat) returns (w': Places)
    requires Batches(bs) && Inv(s, bs, p, w) && Open(bs, p, b) && i < |w.aside| && w.aside[i] == b
    ensures Handle(s, bs[b][p[b]]).Some?
    ensures Inv(Handle(s, bs[b][p[b]]).value, bs, p[b := p[b] + 1], w')
  {
    assert Batch(bs[b]);
    var m := bs[b][p[b]];
    forall j | 0 <= j < |s.reorder| ensures Awaits(s.reorder[j], m) <==> j == i {
      assert AsideAt(s, bs, p, w, j);
      AwaitsOwn(bs, p, b, w.aside[j]);
    }
    assert Awaits(s.reorder[i], m);
    assert FirstAwaiting(s.reorder, m) == i;
    assert AsideAt(s, bs, p, w, i);
    PartGrows(bs, p, b);
    NotDone(s, bs, p, w, b);
    if m.cmd == End {
      w' := w.(aside := w.aside[..i] + w.aside[i + 1..], done := w.done + [b]);
      StepAsideEnd(s, bs, p, w, b, i, w');
    } else {
      w' := w;
      var s', p' := Handle(s, m).value, p[b := p[b] + 1];
      assert p'[b] < |bs[b]|;
      forall j ensures AsideAt(s', bs, p', w', j) { assert AsideAt(s, bs, p, w, j); }
      forall y ensures CurrentAt(s', bs, p', w', y) { assert CurrentAt(s, bs, p, w, y); }
      forall k ensures DoneAt(s', bs, p', w', k) { assert DoneAt(s, bs, p, w, k); }
      forall c ensures Placed(bs, p', w', c) { assert Placed(bs, p, w, c); }
    }
  }

  lemma StepAsideEnd<T>(s: State<T>, bs: seq<seq<Msg<T>>>, p: seq<nat>, w: Places, b: nat, i: nat, w': Places)
    requires Batches(bs) && Inv(s, bs, p, w) && Open(bs, p, b) && i < |w.aside| && w.aside[i] == b
    requires bs[b][p[b]].cmd == End && FirstAwaiting(s.reorder, bs[b][p[b]]) == i
    requires s.reorder[i].Add(bs[b][p[b]]) == Assemble(bs[b][..p[b] + 1])
    requires Distinct(w.done + [b])
    requires w' == w.(aside := w.aside[..i] + w.aside[i + 1..], done := w.done + [b])
    ensures Inv(Handle(s, bs[b][p[b]]).value, bs, p[b := p[b] + 1], w')
  {
    assert Batch(bs[b]) && bs[b][..p[b] + 1] == bs[b];
    var s', p' := Handle(s, bs[b][p[b]]).value, p[b := p[b] + 1];
    assert s'.current == s.current && s'.reorder == s.reorder[..i] + s.reorder[i + 1..]
      && s'.handled == s.handled + [Assemble(bs[b])];
    AsideOneLess(s, bs, p, w, b, i, s', p', w');
    forall y ensures CurrentAt(s', bs, p', w', y) { assert CurrentAt(s, bs, p, w, y); }
    forall k ensures DoneAt(s', bs, p', w', k) { assert DoneAt(s, bs, p, w, k); }
    forall c: nat ensures Placed(bs, p', w', c) {
      assert Placed(bs, p, w, c);
      OneLess(w.aside, i, c);
    }
  }

  lemma AsideOneLess<T>(
      s: State<T>, bs: seq<seq<Msg<T>>>, p: seq<nat>, w: Places, b: nat, i: nat, s': State<T>, p': seq<nat>,
      w': Places)
    requires Inv(s, bs, p, w) && Open(bs, p, b) && p' == p[b := p[b] + 1] && i < |w.aside| && w.aside[i] == b
    requires s'.reorder == s.reorder[..i] + s.reorder[i + 1..] && w'.aside == w.aside[..i] + w.aside[i + 1..]
    ensures Distinct(w'.aside) && |w'.aside| == |s'.reorder|
    ensures forall j {:trigger AsideAt(s', bs, p', w', j)} :: AsideAt(s', bs, p', w', j)
  {
    forall j: nat ensures AsideAt(s', bs, p', w', j) {
      var j0 := if j < i then j else j + 1;
      assert AsideAt(s, bs, p, w, j0);
    }
  }

  lemma OneLess(xs: seq<nat>, i: nat, c: nat)
    requires i < |xs|
    ensures c != xs[i] ==> (c in xs[..i] + xs[i + 1..] <==> c in xs)
  {
    assert xs == xs[..i] + [xs[i]] + xs[i + 1..];
  }

  // MIDDLE or END of the open batch of its sender.
  lemma StepCurrent<T>(s: State<T>, bs: seq<seq<Msg<T>>>, p: seq<nat>, w: Places, b: nat) returns (w': Places)
    requires Batches(bs) && Inv(s, bs, p, w) && Open(bs, p, b) && b !in w.aside
    ensures Handle(s, bs[b][p[b]]).Some?
    ensures Inv(Handle(s, bs[b][p[b]]).value, bs, p[b := p[b] + 1], w')
  {
    assert Batch(bs[b]) && Placed(bs, p, w, b);
    var m := bs[b][p[b]];
    var x := m.sender;
    forall j | 0 <= j < |s.reorder| ensures !Awaits(s.reorder[j], m) {
      assert AsideAt(s, bs, p, w, j);
      AwaitsOwn(bs, p, b, w.aside[j]);
    }
    assert FirstAwaiting(s.reorder, m) == |s.reorder|;
    assert CurrentAt(s, bs, p, w, x);
    PartGrows(bs, p, b);
    NotDone(s, bs, p, w, b);
    w' := if m.cmd == End then w.(current := w.current - {x}, done := w.done + [b]) else w;
    if m.cmd == End {
      assert bs[b][..p[b] + 1] == bs[b];
      StepCurrentEnd(s, bs, p, w, b, w');
    } else {
      var s', p' := Handle(s, m).value, p[b := p[b] + 1];
      assert p'[b] < |bs[b]|;
      forall j ensures AsideAt(s', bs, p', w', j) { assert AsideAt(s, bs, p, w, j); }
      forall y ensures CurrentAt(s', bs, p', w', y) { assert CurrentAt(s, bs, p, w, y); }
      forall k ensures DoneAt(s', bs, p', w', k) { assert DoneAt(s, bs, p, w, k); }
      forall c ensures Placed(bs, p', w', c) { assert Placed(bs, p, w, c); }
    }
  }

  lemma StepCurrentEnd<T>(s: State<T>, bs: seq<seq<Msg<T>>>, p: seq<nat>, w: Places, b: nat, w': Places)
    requires Inv(s, bs, p, w) && Open(bs, p, b) && b !in w.aside && p[b] + 1 == |bs[b]|
    requires bs[b][p[b]].cmd == End && FirstAwaiting(s.reorder, bs[b][p[b]]) == |s.reorder|
    requires bs[b][0].sender == bs[b][p[b]].sender && bs[b][0].sender in w.current && w.current[bs[b][0].sender] == b
    requires s.current[bs[b][0].sender].Add(bs[b][p[b]]) == Assemble(bs[b])
    requires Distinct(w.done + [b])
    requires w' == w.(current := w.current - {bs[b][p[b]].sender}, done := w.done + [b])
    ensures Inv(Handle(s, bs[b][p[b]]).value, bs, p[b := p[b] + 1], w')
  {
    var s', p' := Handle(s, bs[b][p[b]]).value, p[b := p[b] + 1];
    forall j ensures AsideAt(s', bs, p', w', j) { assert AsideAt(s, bs, p, w, j); }
    forall y ensures CurrentAt(s', bs, p', w', y) { assert CurrentAt(s, bs, p, w, y); }
    forall k ensures DoneAt(s', bs, p', w', k) { assert DoneAt(s, bs, p, w, k); }
    forall c ensures Placed(bs, p', w', c) { assert Placed(bs, p, w, c); }
  }

  lemma StepKeeps<T>(s: State<T>, bs: seq<seq<Msg<T>>>, p: seq<nat>, w: Places, b: nat) returns (w': Places)
    requires Batches(bs) && Inv(s, bs, p, w) && b < |bs| && p[b] < |bs[b]|
    ensures Handle(s, bs[b][p[b]]).Some?
    ensures Inv(Handle(s, bs[b][p[b]]).value, bs, p[b := p[b] + 1], w')
  {
    assert Batch(bs[b]);
    if p[b] > 0 {
      if i :| 0 <= i < |w.aside| && w.aside[i] == b {
        w' := StepAside(s, bs, p, w, b, i);
      } else {
        w' := StepCurrent(s, bs, p, w, b);
      }
    } else if bs[b][0].cmd == Single {
      w' := StepSingle(s, bs, p, w, b);
    } else {
      w' := StepStart(s, bs, p, w, b);
    }
  }

  lemma {:induction false} RunKeeps<T>(s: State<T>, bs: seq<seq<Msg<T>>>, p: seq<nat>, sched: seq<nat>, w: Places)
    returns (w': Places)
    requires Batches(bs) && Inv(s, bs, p, w) && Schedule(bs, p, sched)
    ensures Run(s, bs, p, sched).Some?
    ensures Inv(Run(s, bs, p, sched).value, bs, Progress(bs, p, sched), w')
    decreases |sched|
  {
    if sched == [] {
      w' := w;
    } else {
      var b := sched[0];
      var w1 := StepKeeps(s, bs, p, w, b);
      w' := RunKeeps(Handle(s, bs[b][p[b]]).value, bs, p[b := p[b] + 1], sched[1..], w1);
    }
  }

  // ---------------------------------------------------------------- acks

  // A sender's timestamp belongs to one message.
  lemma OneMessage<T>(bs: seq<seq<Msg<T>>>, b: nat, j: nat, c: nat, k: nat)
    requires Batches(bs) && b < |bs| && j < |bs[b]| && c < |bs| && k < |bs[c]|
    requires bs[b][j].sender == bs[c][k].sender && bs[b][j].ts == bs[c][k].ts
    ensures b == c && j == k
  {
    assert Batch(bs[b]) && Batch(bs[c]);
  }

  // KVHandler acks the pushes of batches of several messages itself.
  predicate AckedAtOnce<T>(m: Msg<T>) {
    m.push && m.cmd != Single
  }

  ghost predicate AckAt<T>(acked: seq<Msg<T>>, bs: seq<seq<Msg<T>>>, p: seq<nat>, b: nat, j: nat) {
    b < |bs| == |p| && j < |bs[b]| ==>
      multiset(acked)[bs[b][j]] == if j < p[b] && AckedAtOnce(bs[b][j]) then 1 else 0
  }

  // A message that has arrived.
  ghost predicate Came<T>(bs: seq<seq<Msg<T>>>, p: seq<nat>, m: Msg<T>) {
    exists b, j :: 0 <= b < |bs| && b < |p| && 0 <= j < |bs[b]| && j < p[b] && bs[b][j] == m
  }

  // The acks are those of the arrived pushes of batches, each once.
  ghost predicate AcksOk<T>(acked: seq<Msg<T>>, bs: seq<seq<Msg<T>>>, p: seq<nat>) {
    && (forall b: nat, j: nat {:trigger AckAt(acked, bs, p, b, j)} :: AckAt(acked, bs, p, b, j))
    && (forall i :: 0 <= i < |acked| ==> Came(bs, p, acked[i]) && AckedAtOnce(acked[i]))
  }

  lemma CameStays<T>(bs: seq<seq<Msg<T>>>, p: seq<nat>, b: nat, m: Msg<T>)
    requires |p| == |bs| && b < |bs| && Came(bs, p, m)
    ensures Came(bs, p[b := p[b] + 1], m)
  {
    var c, j :| 0 <= c < |bs| && c < |p| && 0 <= j < |bs[c]| && j < p[c] && bs[c][j] == m;
    assert bs[c][j] == m && j < p[b := p[b] + 1][c];
  }

  lemma StepAcks<T>(s: State<T>, bs: seq<seq<Msg<T>>>, p: seq<nat>, b: nat)
    requires Batches(bs) && |p| == |bs| && b < |bs| && p[b] < |bs[b]| && AcksOk(s.acked, bs, p)
    requires Handle(s, bs[b][p[b]]).Some?
    ensures AcksOk(Handle(s, bs[b][p[b]]).value.acked, bs, p[b := p[b] + 1])
  {
    var m, p' := bs[b][p[b]], p[b := p[b] + 1];
    var acked := Handle(s, m).value.acked;
    assert acked == if AckedAtOnce(m) then s.acked + [m] else s.acked;
    forall c: nat, k: nat ensures AckAt(acked, bs, p', c, k) {
      assert AckAt(s.acked, bs, p, c, k);
      if c < |bs| && k < |bs[c]| && bs[c][k] == m { OneMessage(bs, b, p[b], c, k); }
    }
    forall i | 0 <= i < |acked| ensures Came(bs, p', acked[i]) && AckedAtOnce(acked[i]) {
      if i < |s.acked| {
        CameStays(bs, p, b, s.acked[i]);
      } else {
        assert bs[b][p[b]] == m && p[b] < p'[b];
      }
    }
  }

  lemma {:induction false} RunAcks<T>(s: State<T>, bs: seq<seq<Msg<T>>>, p: seq<nat>, sched: seq<nat>)
    requires Batches(bs) && |p| == |bs| && Schedule(bs, p, sched) && AcksOk(s.acked, bs, p)
    requires Run(s, bs, p, sched).Some?
    ensures AcksOk(Run(s, bs, p, sched).value.acked, bs, Progress(bs, p, sched))
    decreases |sched|
  {
    if sched != [] {
      var b := sched[0];
      StepAcks(s, bs, p, b);
      RunAcks(Handle(s, bs[b][p[b]]).value, bs, p[b := p[b] + 1], sched[1..]);
    }
  }

  // ---------------------------------------------------------------- theorems

  ghost function Zeros(n: nat): seq<nat> {
    seq(n, _ => 0)
  }

  ghost function Fresh<T>(): State<T> {
    State(map[], [], [], [])
  }

  lemma RunFromFresh<T>(bs: seq<seq<Msg<T>>>, sched: seq<nat>) returns (w: Places)
    requires Batches(bs) && Schedule(bs, Zeros(|bs|), sched)
    ensures Run(Fresh(), bs, Zeros(|bs|), sched).Some?
    ensures Inv(Run(Fresh(), bs, Zeros(|bs|), sched).value, bs, Progress(bs, Zeros(|bs|), sched), w)
  {
    var w0, p := Places([], map[], []), Zeros(|bs|);
    assert Inv(Fresh<T>(), bs, p, w0) by {
      forall i: nat ensures AsideAt(Fresh<T>(), bs, p, w0, i) && DoneAt(Fresh<T>(), bs, p, w0, i) {}
      forall x ensures CurrentAt(Fresh<T>(), bs, p, w0, x) {}
      forall b: nat ensures Placed(bs, p, w0, b) { if b < |bs| { assert Batch(bs[b]); } }
    }
    w := RunKeeps(Fresh(), bs, p, sched, w0);
  }

  // Under any interleaving that keeps each batch in order, the request handler
  // has been called once for each complete batch, with that batch, and for
  // nothing else; `order` is the order of the calls.  The pushes of batches that
  // have arrived have been acked, each once, and nothing else.
  lemma HandledExactlyOnce<T>(bs: seq<seq<Msg<T>>>, sched: seq<nat>) returns (order: seq<nat>)
    requires Batches(bs) && Schedule(bs, Zeros(|bs|), sched)
    ensures Run(Fresh(), bs, Zeros(|bs|), sched).Some?
    ensures var s := Run(Fresh(), bs, Zeros(|bs|), sched).value;
      && |s.handled| == |order| && Distinct(order)
      && (forall k :: 0 <= k < |order| ==>
            order[k] < |bs| && bs[order[k]] != [] && s.handled[k] == Assemble(bs[order[k]]))
      && (forall b :: 0 <= b < |bs| ==> (b in order <==> Progress(bs, Zeros(|bs|), sched)[b] == |bs[b]|))
      && AcksOk(s.acked, bs, Progress(bs, Zeros(|bs|), sched))
  {
    var p := Zeros(|bs|);
    var w := RunFromFresh(bs, sched);
    RunAcks(Fresh(), bs, p, sched);
    order := w.done;
    var s, p' := Run(Fresh(), bs, p, sched).value, Progress(bs, p, sched);
    forall k | 0 <= k < |order|
      ensures order[k] < |bs| && bs[order[k]] != [] && s.handled[k] == Assemble(bs[order[k]])
      ensures p'[order[k]] == |bs[order[k]]|
    {
      assert DoneAt(s, bs, p', w, k);
    }
    forall b | 0 <= b < |bs| && p'[b] == |bs[b]| ensures b in order { assert Placed(bs, p', w, b); }
  }

  // Once everything has arrived, as many batches have been handled as were sent
  // and nothing is left open.
  lemma NothingLeftOpen<T>(bs: seq<seq<Msg<T>>>, sched: seq<nat>)
    requires Batches(bs) && Schedule(bs, Zeros(|bs|), sched)
    requires forall b :: 0 <= b < |bs| ==> Progress(bs, Zeros(|bs|), sched)[b] == |bs[b]|
    ensures var r := Run(Fresh(), bs, Zeros(|bs|), sched);
      r.Some? && r.value.current == map[] && r.value.reorder == [] && |r.value.handled| == |bs|
  {
    var p := Zeros(|bs|);
    var w := RunFromFresh(bs, sched);
    var s, p' := Run(Fresh(), bs, p, sched).value, Progress(bs, p, sched);
    assert AsideAt(s, bs, p', w, 0);
    forall x ensures x !in s.current { assert CurrentAt(s, bs, p', w, x); }
    forall b | b in Below(|bs|) ensures b in Elements(w.done) { assert Placed(bs, p', w, b); }
    forall k | 0 <= k < |w.done| ensures w.done[k] in Below(|bs|) { assert DoneAt(s, bs, p', w, k); }
    DistinctElements(w.done);
    assert Elements(w.done) == Below(|bs|);
  }

  // ---------------------------------------------------------------- from the worker on

  // Timestamps as ZBatchPushPull allocates them, from t on.
  ghost predicate Consecutive<T>(r: Request<T>, t: int) {
    && (forall j :: 0 <= j < |r.pushTs| ==> r.pushTs[j] == t + j)
    && (forall j :: 0 <= j < |r.pullTs| ==> r.pullTs[j] == t + |r.push| + j)
  }

  lemma RequestIsBatch<T>(r: Request<T>, t: int, sender: int, servers: nat, i: nat)
    requires Stamped(r, servers) && i < servers && Consecutive(r, t) && Deliverable(|r.push|, |r.pull|, servers)
    ensures Batch(Messages(r, sender, servers, i)) && Messages(r, sender, servers, i)[0].ts == t
    ensures |Messages(r, sender, servers, i)| == |r.push| + |r.pull| / servers
  {
    FlagsOfRequest(r, sender, servers, i);
  }

  lemma {:induction false} AssembleSplits<T>(ms: seq<Msg<T>>, p: nat)
    requires 0 < |ms| && p <= |ms|
    requires forall j :: 0 <= j < |ms| ==> (ms[j].push <==> j < p)
    ensures Assemble(ms).push == ms[..p] && Assemble(ms).pull == ms[p..]
  {
    var n := |ms| - 1;
    if n > 0 {
      AssembleSplits(ms[..n], if p <= n then p else n);
      if p <= n {
        assert ms[..n][..p] == ms[..p] && ms[..n][p..] + [ms[n]] == ms[p..];
      } else {
        assert ms[..n] + [ms[n]] == ms[..p];
      }
    }
  }

  // The handler of server i sees the request's pushes and that server's share of
  // its pulls, in order.
  lemma HandlerSeesRequest<T>(r: Request<T>, t: int, sender: int, servers: nat, i: nat)
    requires Stamped(r, servers) && i < servers && Consecutive(r, t) && Deliverable(|r.push|, |r.pull|, servers)
    ensures var ms := Messages(r, sender, servers, i);
      ms != [] &&
      var a := Assemble(ms);
      && a.sender == sender && a.single == (|r.push| + |r.pull| == 1)
      && Tensors(a.push) == r.push && Tensors(a.pull) == ShareOf(r.pull, servers, i)
      && Stamps(a.push) == r.pushTs && Stamps(a.pull) == r.pullTs
  {
    RequestIsBatch(r, t, sender, servers, i);
    MessagesSplit(r, sender, servers, i);
    AssembleSplits(Messages(r, sender, servers, i), |r.push|);
  }

  lemma MessagesSplit<T>(r: Request<T>, sender: int, servers: nat, i: nat)
    requires Stamped(r, servers) && i < servers
    ensures var ms, p := Messages(r, sender, servers, i), |r.push|;
      && (forall j :: 0 <= j < |ms| ==> (ms[j].push <==> j < p))
      && Tensors(ms[..p]) == r.push && Tensors(ms[p..]) == ShareOf(r.pull, servers, i)
      && Stamps(ms[..p]) == r.pushTs && Stamps(ms[p..]) == r.pullTs
  {
    var ms, p, share := Messages(r, sender, servers, i), |r.push|, ShareOf(r.pull, servers, i);
    forall k | 0 <= k < |share| ensures ms[p..][k].tensor == share[k] {
      PullIsShare(r, servers, i, k);
      assert ms[p..][k] == ms[p + k];
    }
  }

  function Tensors<T>(ms: seq<Msg<T>>): (r: seq<KeyTensor<T>>)
    ensures |r| == |ms|
  {
    seq(|ms|, j requires 0 <= j < |ms| => ms[j].tensor)
  }

  function Stamps<T>(ms: seq<Msg<T>>): (r: seq<int>)
    ensures |r| == |ms|
  {
    seq(|ms|, j requires 0 <= j < |ms| => ms[j].ts)
  }

  // A request with its sender and its first timestamp.
  datatype Sent<T> = Sent(sender: int, t: int, r: Request<T>)

  ghost predicate Legal<T>(x: Sent<T>, servers: nat) {
    Stamped(x.r, servers) && Consecutive(x.r, x.t) && Deliverable(|x.r.push|, |x.r.pull|, servers)
  }

  // Requests that can be reassembled, and no timestamp of a sender used twice.
  ghost predicate AllLegal<T>(xs: seq<Sent<T>>, servers: nat) {
    && (forall k :: 0 <= k < |xs| ==> Legal(xs[k], servers))
    && (forall j, k :: 0 <= j < |xs| && 0 <= k < |xs| && j != k && xs[j].sender == xs[k].sender ==>
          xs[j].t + |xs[j].r.pushTs| + |xs[j].r.pullTs| <= xs[k].t
            || xs[k].t + |xs[k].r.pushTs| + |xs[k].r.pullTs| <= xs[j].t)
  }

  ghost function Wire<T>(xs: seq<Sent<T>>, servers: nat, i: nat): seq<seq<Msg<T>>>
    requires AllLegal(xs, servers) && i < servers
  {
    seq(|xs|, k requires 0 <= k < |xs| => assert Legal(xs[k], servers); Messages(xs[k].r, xs[k].sender, servers, i))
  }

  ghost predicate Shows<T>(a: Meta<T>, x: Sent<T>, servers: nat, i: nat)
    requires Legal(x, servers) && i < servers
  {
    && a.sender == x.sender && Tensors(a.push) == x.r.push && Tensors(a.pull) == ShareOf(x.r.pull, servers, i)
    && Stamps(a.push) == x.r.pushTs && Stamps(a.pull) == x.r.pullTs
  }

  // End to end, for any number of workers and requests: when all messages have
  // arrived at server i, its handler has been called once per request, with the
  // request's pushes and server i's share of its pulls, and each push of a batch
  // has been acked once.
  lemma EndToEnd<T>(xs: seq<Sent<T>>, servers: nat, i: nat, sched: seq<nat>) returns (order: seq<nat>)
    requires AllLegal(xs, servers) && i < servers
    requires Schedule(Wire(xs, servers, i), Zeros(|xs|), sched)
    requires forall b :: 0 <= b < |xs| ==>
      Progress(Wire(xs, servers, i), Zeros(|xs|), sched)[b] == |Wire(xs, servers, i)[b]|
    ensures |order| == |xs| && Distinct(order) && forall k :: 0 <= k < |order| ==> order[k] < |xs|
    ensures var r := Run(Fresh(), Wire(xs, servers, i), Zeros(|xs|), sched);
      && r.Some? && |r.value.handled| == |xs| && r.value.current == map[] && r.value.reorder == []
      && (forall k :: 0 <= k < |order| ==> Shows(r.value.handled[k], xs[order[k]], servers, i))
      && AcksOk(r.value.acked, Wire(xs, servers, i), Progress(Wire(xs, servers, i), Zeros(|xs|), sched))
  {
    var bs := Wire(xs, servers, i);
    WireIsBatches(xs, servers, i);
    order := HandledExactlyOnce(bs, sched);
    NothingLeftOpen(bs, sched);
    var s := Run(Fresh(), bs, Zeros(|xs|), sched).value;
    forall k | 0 <= k < |order| ensures Shows(s.handled[k], xs[order[k]], servers, i) {
      var x := xs[order[k]];
      assert Legal(x, servers);
      HandlerSeesRequest(x.r, x.t, x.sender, servers, i);
    }
  }

  // All messages have arrived at server i.
  ghost predicate Arrived<T>(xs: seq<Sent<T>>, servers: nat, i: nat, sched: seq<nat>)
    requires AllLegal(xs, servers) && i < servers
  {
    && Schedule(Wire(xs, servers, i), Zeros(|xs|), sched)
    && forall b :: 0 <= b < |xs| ==>
         Progress(Wire(xs, servers, i), Zeros(|xs|), sched)[b] == |Wire(xs, servers, i)[b]|
  }

  // What server i has handed to its handler.
  ghost function HandedBy<T>(xs: seq<Sent<T>>, servers: nat, i: nat, sched: seq<nat>): seq<Meta<T>>
    requires AllLegal(xs, servers) && i < servers && Arrived(xs, servers, i, sched)
  {
    match Run(Fresh(), Wire(xs, servers, i), Zeros(|xs|), sched)
    case Some(s) => s.handled
    case None => []
  }

  // The pulls of request b that the handler of server i sees.
  ghost function PullsSeen<T>(xs: seq<Sent<T>>, servers: nat, i: nat, sched: seq<nat>, place: seq<nat>, b: nat)
    : seq<KeyTensor<T>>
    requires AllLegal(xs, servers) && PlacedBy(xs, servers, i, sched, place) && b < |xs|
  {
    Tensors(HandedBy(xs, servers, i, sched)[place[b]].pull)
  }

  ghost predicate ShownAt<T>(xs: seq<Sent<T>>, servers: nat, i: nat, a: Meta<T>, b: nat)
    requires AllLegal(xs, servers) && i < servers && b < |xs|
  {
    assert Legal(xs[b], servers);
    Shows(a, xs[b], servers, i)
  }

  // Over all servers, the handlers see the pulls of each request once, each at its
  // own server, but for a remainder that fills no share.
  lemma AllServersSee<T>(xs: seq<Sent<T>>, servers: nat, scheds: seq<seq<nat>>) returns (places: seq<seq<nat>>)
    requires AllLegal(xs, servers) && |scheds| == servers && 0 < servers
    requires forall i :: 0 <= i < servers ==> Arrived(xs, servers, i, scheds[i])
    ensures |places| == servers && forall i :: 0 <= i < servers ==> PlacedBy(xs, servers, i, scheds[i], places[i])
    ensures forall b :: 0 <= b < |xs| ==> SeenOnce(xs, servers, scheds, places, b)
  {
    places := [];
    while |places| < servers
      invariant |places| <= servers
      invariant forall i :: 0 <= i < |places| ==> PlacedBy(xs, servers, i, scheds[i], places[i])
    {
      var place := PlacesOf(xs, servers, |places|, scheds[|places|]);
      places := places + [place];
    }
    forall b | 0 <= b < |xs| ensures SeenOnce(xs, servers, scheds, places, b) {
      var parts := seq(servers, i requires 0 <= i < servers => PullsSeen(xs, servers, i, scheds[i], places[i], b));
      forall i | 0 <= i < servers ensures parts[i] == ShareOf(xs[b].r.pull, servers, i) {
        assert PlacedBy(xs, servers, i, scheds[i], places[i]);
      }
      SharesJoin(xs[b].r.pull, servers, parts);
    }
  }

  // Server i has handled each request once, request b at place[b].
  ghost predicate PlacedBy<T>(xs: seq<Sent<T>>, servers: nat, i: nat, sched: seq<nat>, place: seq<nat>)
    requires AllLegal(xs, servers)
  {
    && i < servers && Arrived(xs, servers, i, sched)
    && |HandedBy(xs, servers, i, sched)| == |place| == |xs| && Distinct(place)
    && forall b :: 0 <= b < |xs| ==>
         place[b] < |xs| && ShownAt(xs, servers, i, HandedBy(xs, servers, i, sched)[place[b]], b)
  }

  ghost predicate SeenOnce<T>(
      xs: seq<Sent<T>>, servers: nat, scheds: seq<seq<nat>>, places: seq<seq<nat>>, b: nat)
    requires AllLegal(xs, servers) && |scheds| == |places| == servers && 0 < servers && b < |xs|
    requires forall i :: 0 <= i < servers ==> PlacedBy(xs, servers, i, scheds[i], places[i])
  {
    Concat(seq(servers, i requires 0 <= i < servers => PullsSeen(xs, servers, i, scheds[i], places[i], b)))
      == FirstShares(xs[b].r.pull, servers, servers)
  }

  // Where server i has handled each request: order, turned round.
  lemma PlacesOf<T>(xs: seq<Sent<T>>, servers: nat, i: nat, sched: seq<nat>) returns (place: seq<nat>)
    requires AllLegal(xs, servers) && i < servers && Arrived(xs, servers, i, sched)
    ensures PlacedBy(xs, servers, i, sched, place)
  {
    var order := EndToEnd(xs, servers, i, sched);
    place := Inverse(order);
    var handed := HandedBy(xs, servers, i, sched);
    forall b | 0 <= b < |xs| ensures place[b] < |xs| && ShownAt(xs, servers, i, handed[place[b]], b) {
      assert Legal(xs[b], servers) && order[place[b]] == b;
    }
  }

  // A list of all numbers below its length has an inverse.
  lemma Inverse(order: seq<nat>) returns (place: seq<nat>)
    requires Distinct(order) && forall k :: 0 <= k < |order| ==> order[k] < |order|
    ensures |place| == |order| && Distinct(place)
    ensures forall b :: 0 <= b < |order| ==> place[b] < |order| && order[place[b]] == b
  {
    DistinctElements(order);
    forall x | x in Elements(order) ensures x in Below(|order|) {}
    SubsetSize(Elements(order), Below(|order|));
    place := [];
    while |place| < |order|
      invariant |place| <= |order|
      invariant forall b :: 0 <= b < |place| ==> place[b] < |order| && order[place[b]] == b
    {
      assert |place| in Below(|order|) && |place| in Elements(order);
      var k: nat :| k < |order| && order[k] == |place|;
      place := place + [k];
    }
  }

  lemma WireIsBatches<T>(xs: seq<Sent<T>>, servers: nat, i: nat)
    requires AllLegal(xs, servers) && i < servers
    ensures Batches(Wire(xs, servers, i))
  {
    var bs := Wire(xs, servers, i);
    forall k | 0 <= k < |xs|
      ensures Batch(bs[k]) && bs[k][0].ts == xs[k].t && bs[k][0].sender == xs[k].sender
      ensures |bs[k]| == |xs[k].r.pushTs| + |xs[k].r.pullTs|
    {
      assert Legal(xs[k], servers);
      RequestIsBatch(xs[k].r, xs[k].t, xs[k].sender, servers, i);
    }
  }
}
