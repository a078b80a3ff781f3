/**
  Request ordering in the UCX transport (comm/src/ucx_van.h): each request to a
  node carries a sequence id modulo MAX_SID_COUNT; the receiving side passes the
  requests of a sender on in sequence order and buffers those that come early.
 */
module UcxReorder {
  import opened Prelude

  // The fields of a received buffer that matter here; `isRequest` is false for
  // messages whose order is not checked.
  datatype Buf<T> = Buf(sender: nat, sid: nat, isRequest: bool, data: T)

  // The sender's side: the sid of the k-th request is k modulo the count.
  class SidCounter {
    const modulus: nat
    var nextSend: nat
    ghost var k: nat

    ghost predicate Valid()
      reads this
    {
      modulus > 0 && nextSend % modulus == k % modulus
    }

    constructor (modulus: nat)
      requires modulus > 0
      ensures Valid() && k == 0 && this.modulus == modulus
    {
      this.modulus, nextSend, k := modulus, 0, 0;
    }

    method NextSid() returns (sid: nat)
      requires Valid()
      modifies this
      ensures Valid() && k == old(k) + 1 && sid == old(k) % modulus
    {
      sid := nextSend % modulus;
      nextSend := sid + 1;
      k := k + 1;
      SameSuccessor(k - 1, modulus);
    }
  }

  lemma SameSuccessor(k: nat, m: nat)
    requires m > 0
    ensures (k % m + 1) % m == (k + 1) % m
  {
    var q, r := k / m, k % m;
    assert k == q * m + r;
    if r + 1 < m {
      DivModUnique(k + 1, m, q, r + 1);
      DivModUnique(r + 1, m, 0, r + 1);
    } else {
      assert (q + 1) * m == q * m + m;
      DivModUnique(k + 1, m, q + 1, 0);
      DivModUnique(m, m, 1, 0);
    }
  }

  // Two numbers less than a modulus apart with the same remainder are equal.
  lemma SameResidue(a: nat, b: nat, m: nat)
    requires m > 0 && a % m == b % m && -(m as int) < a - b < m
    ensures a == b
  {
    var qa, qb := a / m, b / m;
    assert a == qa * m + a % m && b == qb * m + b % m;
    assert (qa - qb) * m == a - b && (qb - qa) * m == b - a by {
      assert (qa - qb) * m == qa * m - qb * m && (qb - qa) * m == qb * m - qa * m;
    }
    if qa != qb { TimesAtLeast(if qa > qb then qa - qb else qb - qa, m); }
  }

  // r is the first number missing from got.
  ghost predicate FirstMissing(got: set<nat>, r: nat) {
    r !in got && forall n :: 0 <= n < r ==> n in got
  }

  // The n-th request of each sender.
  ghost predicate Streams<T(!new)>(stream: (nat, nat) -> Buf<T>, modulus: nat)
    requires modulus > 0
  {
    forall s: nat, n: nat :: stream(s, n).sender == s && stream(s, n).sid == n % modulus && stream(s, n).isRequest
  }

  // Requests lo..hi of sender s.
  ghost function Slice<T>(stream: (nat, nat) -> Buf<T>, s: nat, lo: nat, hi: nat): seq<Buf<T>>
    requires lo <= hi
  {
    seq(hi - lo, i requires 0 <= i < hi - lo => stream(s, lo + i))
  }

  // The ordered requests of sender s among the messages passed on.
  ghost function OfSender<T>(out: seq<Buf<T>>, s: nat): seq<Buf<T>> {
    if out == [] then []
    else
      var m := |out| - 1;
      OfSender(out[..m], s) + if out[m].sender == s && out[m].isRequest then [out[m]] else []
  }

  // The messages whose order is not checked.
  ghost function Others<T>(out: seq<Buf<T>>): seq<Buf<T>> {
    if out == [] then []
    else
      var m := |out| - 1;
      Others(out[..m]) + if out[m].isRequest then [] else [out[m]]
  }

  lemma {:induction false} OthersConcat<T>(out: seq<Buf<T>>, more: seq<Buf<T>>)
    ensures Others(out + more) == Others(out) + Others(more)
  {
    if more == [] {
      assert out + more == out;
    } else {
      var m := |more| - 1;
      OthersConcat(out, more[..m]);
      assert (out + more)[..|out| + m] == out + more[..m];
    }
  }

  lemma {:induction false} OthersSlice<T(!new)>(stream: (nat, nat) -> Buf<T>, modulus: nat, s: nat, lo: nat, hi: nat)
    requires modulus > 0 && Streams(stream, modulus) && lo <= hi
    ensures Others(Slice(stream, s, lo, hi)) == []
    decreases hi
  {
    if lo < hi {
      OthersSlice(stream, modulus, s, lo, hi - 1);
      assert Slice(stream, s, lo, hi)[..hi - 1 - lo] == Slice(stream, s, lo, hi - 1);
      assert stream(s, hi - 1).isRequest;
    }
  }

  lemma {:induction false} OthersStay<T(!new)>(
      out: seq<Buf<T>>, stream: (nat, nat) -> Buf<T>, modulus: nat, s: nat, lo: nat, hi: nat)
    requires modulus > 0 && Streams(stream, modulus) && lo <= hi
    ensures Others(out + Slice(stream, s, lo, hi)) == Others(out)
  {
    OthersConcat(out, Slice(stream, s, lo, hi));
    OthersSlice(stream, modulus, s, lo, hi);
  }

  lemma {:induction false} OfSenderConcat<T>(out: seq<Buf<T>>, more: seq<Buf<T>>, s: nat)
    ensures OfSender(out + more, s) == OfSender(out, s) + OfSender(more, s)
  {
    if more == [] {
      assert out + more == out;
    } else {
      var m := |more| - 1;
      OfSenderConcat(out, more[..m], s);
      assert (out + more)[..|out| + m] == out + more[..m];
    }
  }

  lemma {:induction false} OfSenderSlice<T(!new)>(
      stream: (nat, nat) -> Buf<T>, modulus: nat, s: nat, lo: nat, hi: nat, s': nat)
    requires modulus > 0 && Streams(stream, modulus) && lo <= hi
    ensures OfSender(Slice(stream, s, lo, hi), s') == if s == s' then Slice(stream, s, lo, hi) else []
    decreases hi
  {
    if lo < hi {
      OfSenderSlice(stream, modulus, s, lo, hi - 1, s');
      assert Slice(stream, s, lo, hi)[..hi - 1 - lo] == Slice(stream, s, lo, hi - 1);
      assert stream(s, hi - 1).sender == s && stream(s, hi - 1).isRequest;
    }
  }

  lemma OfSenderGrows<T(!new)>(
      stream: (nat, nat) -> Buf<T>, modulus: nat, out: seq<Buf<T>>, s: nat, lo: nat, hi: nat, s': nat)
    requires modulus > 0 && Streams(stream, modulus) && lo <= hi
    ensures OfSender(out + Slice(stream, s, lo, hi), s') ==
            OfSender(out, s') + if s == s' then Slice(stream, s, lo, hi) else []
  {
    OfSenderConcat(out, Slice(stream, s, lo, hi), s');
    OfSenderSlice(stream, modulus, s, lo, hi, s');
  }

  lemma SliceJoin<T>(stream: (nat, nat) -> Buf<T>, s: nat, lo: nat, mid: nat, hi: nat)
    requires lo <= mid <= hi
    ensures Slice(stream, s, lo, mid) + Slice(stream, s, mid, hi) == Slice(stream, s, lo, hi)
  {
  }

  // The buffered requests are exactly those of `got` from r on, each under its
  // sid and less than a modulus ahead; num gives back the full number of a sid.
  ghost predicate Ahead<T>(buf: map<nat, Buf<T>>, num: map<nat, nat>, got: set<nat>, r: nat, modulus: nat,
                           stream: (nat, nat) -> Buf<T>, s: nat)
    requires modulus > 0
  {
    && num.Keys == buf.Keys
    && (forall sid {:trigger Named(buf, num, got, r, modulus, stream, s, sid)} ::
      Named(buf, num, got, r, modulus, stream, s, sid))
    && (forall n {:trigger Kept(num, got, r, modulus, n)} :: Kept(num, got, r, modulus, n))
  }

  ghost predicate Named<T>(buf: map<nat, Buf<T>>, num: map<nat, nat>, got: set<nat>, r: nat, modulus: nat,
                           stream: (nat, nat) -> Buf<T>, s: nat, sid: nat)
    requires modulus > 0
  {
    sid in num && sid in buf ==>
      num[sid] in got && r <= num[sid] && num[sid] % modulus == sid && buf[sid] == stream(s, num[sid])
  }

  ghost predicate Kept(num: map<nat, nat>, got: set<nat>, r: nat, modulus: nat, n: nat)
    requires modulus > 0
  {
    n in got && r <= n ==> n < r + modulus && n % modulus in num && num[n % modulus] == n
  }

  // Pass on buffered requests as long as the next one is there.
  method Drain<T>(buffs: map<nat, Buf<T>>, next: nat, modulus: nat, ghost num: map<nat, nat>, ghost got: set<nat>,
                  ghost r: nat, ghost stream: (nat, nat) -> Buf<T>, ghost s: nat)
    returns (buffs': map<nat, Buf<T>>, next': nat, out: seq<Buf<T>>, ghost num': map<nat, nat>, ghost r': nat)
    requires modulus > 0 && Ahead(buffs, num, got, r, modulus, stream, s) && next == r % modulus
    ensures Ahead(buffs', num', got, r', modulus, stream, s) && next' == r' % modulus
    ensures r <= r' && r' !in got && forall n :: r <= n < r' ==> n in got
    ensures out == Slice(stream, s, r, r')
  {
    buffs', next', out, num', r' := buffs, next, [], num, r;
    while next' in buffs'
      invariant Ahead(buffs', num', got, r', modulus, stream, s) && next' == r' % modulus
      invariant r <= r' && forall n :: r <= n < r' ==> n in got
      invariant out == Slice(stream, s, r, r')
      decreases |buffs'.Keys|
    {
      TakeNext(buffs', num', got, r', modulus, stream, s);
      SliceExtend(stream, s, r, r');
      out := out + [buffs'[next']];
      buffs', num' := buffs' - {next'}, num' - {next'};
      SameSuccessor(r', modulus);
      next', r' := (next' + 1) % modulus, r' + 1;
    }
    assert Kept(num', got, r', modulus, r');
  }

  // What is buffered under the next sid is the next request.
  lemma TakeNext<T>(buf: map<nat, Buf<T>>, num: map<nat, nat>, got: set<nat>, r: nat, modulus: nat,
                    stream: (nat, nat) -> Buf<T>, s: nat)
    requires modulus > 0 && Ahead(buf, num, got, r, modulus, stream, s) && r % modulus in buf
    ensures r in got && buf[r % modulus] == stream(s, r)
    ensures Ahead(buf - {r % modulus}, num - {r % modulus}, got, r + 1, modulus, stream, s)
    ensures |(buf - {r % modulus}).Keys| < |buf.Keys|
  {
    var buf', num' := buf - {r % modulus}, num - {r % modulus};
    assert Named(buf, num, got, r, modulus, stream, s, r % modulus);
    assert Kept(num, got, r, modulus, num[r % modulus]);
    SameResidue(num[r % modulus], r, modulus);
    var r1 := r + 1;
    forall n: nat ensures Kept(num', got, r1, modulus, n) {
      assert Kept(num, got, r, modulus, n);
      if n in got && r + 1 <= n && n % modulus == r % modulus { SameResidue(n, r, modulus); }
    }
    forall sid: nat ensures Named(buf', num', got, r1, modulus, stream, s, sid) {
      assert Named(buf, num, got, r, modulus, stream, s, sid);
    }
    assert (buf - {r % modulus}).Keys == buf.Keys - {r % modulus};
  }

  lemma SliceExtend<T>(stream: (nat, nat) -> Buf<T>, s: nat, lo: nat, hi: nat)
    requires lo <= hi
    ensures Slice(stream, s, lo, hi + 1) == Slice(stream, s, lo, hi) + [stream(s, hi)]
  {
  }

  // What a sender's messages have led to: those that came, how many of them
  // have been passed on, and the numbers behind the buffered sids.
  datatype Peer = Peer(got: set<nat>, released: nat, num: map<nat, nat>)

  const NewPeer := Peer({}, 0, map[])

  ghost predicate PeerOk<T>(next: nat, buffs: map<nat, Buf<T>>, peer: Peer, modulus: nat,
                            stream: (nat, nat) -> Buf<T>, s: nat)
  {
    && modulus > 0 && FirstMissing(peer.got, peer.released) && next == peer.released % modulus
    && Ahead(buffs, peer.num, peer.got, peer.released, modulus, stream, s)
  }

  // One round of ReorderMsg for the n-th request of sender s: `out` is passed on.
  method Admit<T(!new)>(buf: Buf<T>, next: nat, buffs: map<nat, Buf<T>>, modulus: nat,
                        ghost n: nat, ghost peer: Peer, ghost stream: (nat, nat) -> Buf<T>, ghost s: nat)
    returns (next': nat, buffs': map<nat, Buf<T>>, out: seq<Buf<T>>, ghost peer': Peer)
    requires PeerOk(next, buffs, peer, modulus, stream, s) && Streams(stream, modulus)
    requires buf == stream(s, n) && n !in peer.got && n < peer.released + modulus
    ensures PeerOk(next', buffs', peer', modulus, stream, s) && peer'.got == peer.got + {n}
    ensures peer.released <= peer'.released && out == Slice(stream, s, peer.released, peer'.released)
  {
    ghost var r, g := peer.released, peer.got + {n};
    var sid := buf.sid;
    assert sid == n % modulus && r <= n;
    if sid == next {
      SameResidue(n, r, modulus);
      SameSuccessor(r, modulus);
      ghost var r1 := r + 1;
      forall x: nat ensures Kept(peer.num, g, r1, modulus, x) { assert Kept(peer.num, peer.got, r, modulus, x); }
      forall x: nat ensures Named(buffs, peer.num, g, r1, modulus, stream, s, x) {
        assert Named(buffs, peer.num, peer.got, r, modulus, stream, s, x);
      }
      var more;
      ghost var num, r';
      buffs', next', more, num, r' := Drain(buffs, (next + 1) % modulus, modulus, peer.num, g, r + 1, stream, s);
      out := [buf] + more;
      SliceJoin(stream, s, r, r + 1, r');
      assert Slice(stream, s, r, r + 1) == [buf];
      peer' := Peer(g, r', num);
    } else {
      next', buffs', out := next, buffs[sid := buf], [];
      peer' := Peer(g, r, peer.num[sid := n]);
      forall x: nat ensures Kept(peer'.num, g, r, modulus, x) {
        assert Kept(peer.num, peer.got, r, modulus, x);
        if x in peer.got && r <= x && x % modulus == sid { SameResidue(n, x, modulus); }
      }
      forall x: nat ensures Named(buffs', peer'.num, g, r, modulus, stream, s, x) {
        assert Named(buffs, peer.num, peer.got, r, modulus, stream, s, x);
      }
    }
  }

  // The requests of s passed on are its first ones, in order, and the next and
  // the buffered ones follow.
  ghost predicate InOrder<T>(next: nat, buffs: map<nat, Buf<T>>, peer: Peer, ordered: seq<Buf<T>>, modulus: nat,
                             stream: (nat, nat) -> Buf<T>, s: nat)
  {
    PeerOk(next, buffs, peer, modulus, stream, s) && OfSender(ordered, s) == Slice(stream, s, 0, peer.released)
  }

  lemma InOrderOwn<T(!new)>(next: nat, buffs: map<nat, Buf<T>>, lo: nat, peer: Peer, ordered: seq<Buf<T>>, modulus: nat,
                            stream: (nat, nat) -> Buf<T>, s: nat)
    requires PeerOk(next, buffs, peer, modulus, stream, s) && Streams(stream, modulus) && lo <= peer.released
    requires OfSender(ordered, s) == Slice(stream, s, 0, lo)
    ensures InOrder(next, buffs, peer, ordered + Slice(stream, s, lo, peer.released), modulus, stream, s)
  {
    OfSenderGrows(stream, modulus, ordered, s, lo, peer.released, s);
    SliceJoin(stream, s, 0, lo, peer.released);
  }

  lemma InOrderOther<T(!new)>(next: nat, buffs: map<nat, Buf<T>>, peer: Peer, ordered: seq<Buf<T>>, modulus: nat,
                              stream: (nat, nat) -> Buf<T>, s: nat, s': nat, lo: nat, hi: nat)
    requires InOrder(next, buffs, peer, ordered, modulus, stream, s) && Streams(stream, modulus) && s != s' && lo <= hi
    ensures InOrder(next, buffs, peer, ordered + Slice(stream, s', lo, hi), modulus, stream, s)
  {
    OfSenderGrows(stream, modulus, ordered, s', lo, hi, s);
  }

  class Reorderer<T(!new)> {
    const modulus: nat
    const forceOrder: bool
    var nextRecv: map<nat, nat>
    var buffers: map<nat, map<nat, Buf<T>>>
    var ordered: seq<Buf<T>>

    ghost const stream: (nat, nat) -> Buf<T>
    ghost var peers: map<nat, Peer>

    // The requests of s passed on are its first ones, in order.
    ghost predicate SenderOk(s: nat)
      reads this
    {
      InOrder(Get(nextRecv, s, 0), Get(buffers, s, map[]), Get(peers, s, NewPeer), ordered, modulus, stream, s)
    }

    ghost predicate Valid()
      reads this
    {
      modulus > 0 && Streams(stream, modulus) && forall s {:trigger SenderOk(s)} :: SenderOk(s)
    }

    constructor (modulus: nat, forceOrder: bool, ghost stream: (nat, nat) -> Buf<T>)
      requires modulus > 0 && Streams(stream, modulus)
      ensures Valid() && peers == map[] && ordered == []
      ensures this.modulus == modulus && this.forceOrder == forceOrder && this.stream == stream
    {
      this.modulus, this.forceOrder, this.stream := modulus, forceOrder, stream;
      nextRecv, buffers, ordered, peers := map[], map[], [], map[];
    }

    // A message whose order does not matter is passed on at once.
    method PassOn(buf: Buf<T>)
      requires Valid() && !buf.isRequest
      modifies this
      ensures Valid() && ordered == old(ordered) + [buf] && peers == old(peers)
      ensures Others(ordered) == Others(old(ordered)) + [buf]
    {
      OthersConcat(ordered, [buf]);
      assert Others([buf]) == [buf];
      ordered := ordered + [buf];
      forall s ensures SenderOk(s) {
        assert old(SenderOk(s));
        OfSenderConcat(old(ordered), [buf], s);
        assert OfSender([buf], s) == [];
      }
    }

    // The n-th request of its sender, which has not come before and is within
    // the window, is passed on or buffered.
    method Receive(buf: Buf<T>, ghost n: nat)
      requires Valid() && forceOrder && buf == stream(buf.sender, n)
      requires var peer := Get(peers, buf.sender, NewPeer); n !in peer.got && n < peer.released + modulus
      modifies this
      ensures Valid() && old(ordered) <= ordered && Others(ordered) == Others(old(ordered))
      ensures buf.sender in peers && peers == old(peers)[buf.sender := peers[buf.sender]]
      ensures peers[buf.sender].got == Get(old(peers), buf.sender, NewPeer).got + {n}
    {
      var s := buf.sender;
      ghost var peer := Get(peers, s, NewPeer);
      assert SenderOk(s);
      var next, buffs, out;
      ghost var peer';
      next, buffs, out, peer' := Admit(buf, Get(nextRecv, s, 0), Get(buffers, s, map[]), modulus, n, peer, stream, s);
      nextRecv, buffers := nextRecv[s := next], buffers[s := buffs];
      OthersStay(ordered, stream, modulus, s, peer.released, peer'.released);
      ordered := ordered + out;
      peers := peers[s := peer'];
      InOrderOwn(next, buffs, peer.released, peer', old(ordered), modulus, stream, s);
      forall s': nat ensures SenderOk(s') {
        assert old(SenderOk(s'));
        if s' != s {
          InOrderOther(Get(nextRecv, s', 0), Get(buffers, s', map[]), Get(peers, s', NewPeer), old(ordered),
            modulus, stream, s',
                       s, peer.released, peer'.released);
        }
      }
    }
  }

  // The numbers of the first i arrivals that are requests of sender s.
  ghost function Arrived<T>(bufs: seq<Buf<T>>, nums: seq<nat>, i: nat, s: nat): set<nat>
    requires i <= |bufs| == |nums|
  {
    set j | 0 <= j < i && bufs[j].sender == s && bufs[j].isRequest :: nums[j]
  }

  // Requests without loss of identity or duplication, at most a modulus ahead of
  // the first one missing.
  ghost predicate Windowed<T>(bufs: seq<Buf<T>>, nums: seq<nat>, modulus: nat, stream: (nat, nat) -> Buf<T>)
    requires |bufs| == |nums|
  {
    forall i :: 0 <= i < |bufs| && bufs[i].isRequest ==>
      && bufs[i] == stream(bufs[i].sender, nums[i])
      && nums[i] !in Arrived(bufs, nums, i, bufs[i].sender)
      && forall r: nat :: FirstMissing(Arrived(bufs, nums, i, bufs[i].sender), r) ==> nums[i] < r + modulus
  }

  lemma ArrivedNext<T>(bufs: seq<Buf<T>>, nums: seq<nat>, i: nat, s: nat)
    requires i < |bufs| == |nums|
    ensures Arrived(bufs, nums, i + 1, s) ==
            Arrived(bufs, nums, i, s) + if bufs[i].sender == s && bufs[i].isRequest then {nums[i]} else {}
  {
  }

  // The buffer holds exactly the requests of `got` after r, each under its sid and
  // less than a modulus ahead.
  ghost predicate HoldsBeyond<T>(
      buf: map<nat, Buf<T>>, got: set<nat>, r: nat, modulus: nat, stream: (nat, nat) -> Buf<T>, s: nat)
    requires modulus > 0
  {
    && (forall n {:trigger stream(s, n)} :: n in got && n >= r ==>
          r < n < r + modulus && n % modulus in buf && buf[n % modulus] == stream(s, n))
    && (forall sid :: sid in buf ==>
      exists n {:trigger stream(s, n)} :: n in got && n > r && n % modulus == sid && buf[sid] == stream(s, n))
  }

  lemma AheadHolds<T>(
      buf: map<nat, Buf<T>>, num: map<nat, nat>, got: set<nat>, r: nat, modulus: nat, stream: (nat, nat) -> Buf<T>,
      s: nat)
    requires modulus > 0 && Ahead(buf, num, got, r, modulus, stream, s) && FirstMissing(got, r)
    ensures HoldsBeyond(buf, got, r, modulus, stream, s)
  {
    forall n | n in got && n >= r
      ensures r < n < r + modulus && n % modulus in buf && buf[n % modulus] == stream(s, n) {
      assert Kept(num, got, r, modulus, n) && Named(buf, num, got, r, modulus, stream, s, n % modulus);
    }
    forall sid | sid in buf
      ensures exists n {:trigger stream(s, n)} :: n in got && n > r && n % modulus == sid && buf[sid] == stream(s, n) {
      assert Named(buf, num, got, r, modulus, stream, s, sid);
      assert buf[sid] == stream(s, num[sid]);
    }
  }

  // For any arrival order, what has been passed on of each sender's requests is
  // exactly its requests up to the first that has not come, and what is buffered is
  // exactly the rest of those that have come.  All other messages are passed on, once
  // and in order of arrival.
  method Reorder<T(!new)>(bufs: seq<Buf<T>>, modulus: nat, ghost nums: seq<nat>, ghost stream: (nat, nat) -> Buf<T>)
    returns (ordered: seq<Buf<T>>, buffers: map<nat, map<nat, Buf<T>>>)
    requires modulus > 0 && |nums| == |bufs| && Streams(stream, modulus) && Windowed(bufs, nums, modulus, stream)
    ensures forall s: nat, r: nat :: FirstMissing(Arrived(bufs, nums, |bufs|, s), r) ==>
      && OfSender(ordered, s) == Slice(stream, s, 0, r)
      && HoldsBeyond(Get(buffers, s, map[]), Arrived(bufs, nums, |bufs|, s), r, modulus, stream, s)
    ensures Others(ordered) == Others(bufs)
  {
    var q := new Reorderer<T>(modulus, true, stream);
    for i := 0 to |bufs|
      invariant q.Valid() && q.modulus == modulus && q.forceOrder && q.stream == stream
      invariant forall s: nat :: Get(q.peers, s, NewPeer).got == Arrived(bufs, nums, i, s)
      invariant Others(q.ordered) == Others(bufs[..i])
    {
      assert bufs[..i + 1][..i] == bufs[..i] && bufs[..i + 1][i] == bufs[i];
      ghost var before, i1 := q.peers, i + 1;
      if bufs[i].isRequest {
        assert q.SenderOk(bufs[i].sender);
        q.Receive(bufs[i], nums[i]);
      } else {
        q.PassOn(bufs[i]);
      }
      forall s: nat ensures Get(q.peers, s, NewPeer).got == Arrived(bufs, nums, i1, s) {
        ArrivedNext(bufs, nums, i, s);
        assert Get(before, s, NewPeer).got == Arrived(bufs, nums, i, s);
      }
    }
    assert bufs[..|bufs|] == bufs;
    ordered, buffers := q.ordered, q.buffers;
    forall s: nat, r: nat | FirstMissing(Arrived(bufs, nums, |bufs|, s), r)
      ensures OfSender(ordered, s) == Slice(stream, s, 0, r)
      ensures HoldsBeyond(Get(buffers, s, map[]), Arrived(bufs, nums, |bufs|, s), r, modulus, stream, s)
    {
      assert q.SenderOk(s);
      ghost var peer := Get(q.peers, s, NewPeer);
      assert peer.released == r;
      AheadHolds(Get(buffers, s, map[]), peer.num, peer.got, r, modulus, stream, s);
    }
  }

  function Get<K, V>(m: map<K, V>, k: K, default: V): V {
    if k in m then m[k] else default
  }
}
