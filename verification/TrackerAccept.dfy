/**
  Link establishment by the Rabit tracker (comm/tracker/tracker.py): each new
  node dials those of its neighbours that wait for connections, and then waits
  for the neighbours that are still to come.  Fresh start, no connection errors.
 */
module TrackerAccept {
  import opened Prelude
  import opened TrackerRing

  // nnset: the tree neighbours, and the ring neighbours other than the node itself
  function LinkSet(l: Links, r: nat): set<nat>
    requires r in l.tree && r in l.ring
  {
    (set x | x in l.tree[r])
    + (if l.ring[r].0 != r then {l.ring[r].0} else {})
    + (if l.ring[r].1 != r then {l.ring[r].1} else {})
  }

  // Who is linked to whom: symmetric, among 0..n-1, nobody with itself.
  ghost predicate Symmetric(nb: map<nat, set<nat>>, n: nat) {
    nb.Keys == Below(n) && forall a, b {:trigger Linked(nb, a, b)} :: Linked(nb, a, b)
  }

  ghost predicate Linked(nb: map<nat, set<nat>>, a: nat, b: nat) {
    a in nb && b in nb[a] ==> b in nb && a in nb[b] && a != b
  }

  // The links that get_link_map lays out are symmetric.
  lemma LinkSetsSymmetric(n: nat, rmap: map<nat, nat>, rlst: seq<nat>, l: Links, a: nat, b: nat)
    requires n == |rlst| && Renaming(rmap, rlst) && a < n && b < n
    requires forall x: nat :: Carried(n, rmap, l.tree, l.parent, x)
    requires forall i: nat :: i < n ==> i in l.ring && l.ring[i] == (Pred(i, n), Succ(i, n))
    ensures a in l.tree && b in l.tree
    ensures b in LinkSet(l, a) <==> a in LinkSet(l, b)
    ensures a !in LinkSet(l, a) && forall z :: z in LinkSet(l, a) ==> z < n
  {
    LinksAreSound(n, rmap, rlst, l.tree, l.parent, a, b);
    LinksAreSound(n, rmap, rlst, l.tree, l.parent, b, a);
    LinkSetIs(n, l, a, b);
    LinkSetIs(n, l, b, a);
    LinkSetIs(n, l, a, a);
    forall z | z in LinkSet(l, a) ensures z < n { LinkSetIs(n, l, a, z); }
  }

  lemma LinkSetIs(n: nat, l: Links, a: nat, b: nat)
    requires a < n && a in l.tree && a in l.ring && l.ring[a] == (Pred(a, n), Succ(a, n))
    ensures b in LinkSet(l, a) <==> b in l.tree[a] || (a != b && (b == Pred(a, n) || b == Succ(a, n)))
  {
  }

  // The tracker's tables: the nodes that wait for connections, how many each
  // node waits for, the connections nodes were told to make, as (node,
  // neighbour), and when each node got its rank.
  datatype Tables = Tables(waitConn: set<nat>, waitAccept: map<nat, nat>, dialled: multiset<(nat, nat)>,
    pos: map<nat, nat>)

  // A node with rank waits for its neighbours without rank.
  ghost predicate NodeOk(nb: map<nat, set<nat>>, s: Tables, a: nat) {
    a in s.pos ==>
      && a in nb && a in s.waitAccept && s.pos[a] < |s.pos|
      && s.waitAccept[a] == |nb[a] - s.pos.Keys|
      && (a in s.waitConn <==> s.waitAccept[a] > 0)
  }

  // A link is dialled once, by the end that got its rank later.
  ghost predicate LinkOk(nb: map<nat, set<nat>>, s: Tables, b: nat, a: nat) {
    s.dialled[(b, a)] ==
      if a in s.pos && b in s.pos && s.pos[a] < s.pos[b] && b in nb && a in nb[b] then 1 else 0
  }

  ghost predicate Inv(nb: map<nat, set<nat>>, s: Tables) {
    && s.pos.Keys <= nb.Keys && s.waitConn <= s.pos.Keys
    && (forall a {:trigger NodeOk(nb, s, a)} :: NodeOk(nb, s, a))
    && (forall a, b {:trigger LinkOk(nb, s, b, a)} :: LinkOk(nb, s, b, a))
  }

  // What assign_rank does to the tables, given the neighbours that wait.
  ghost function Assigned(nb: map<nat, set<nat>>, s: Tables, rank: nat): Tables
    requires rank in nb && forall r :: r in nb[rank] * s.waitConn ==> r in s.waitAccept && s.waitAccept[r] > 0
  {
    var con := nb[rank] * s.waitConn;
    var left := Lowered(s.waitAccept, con);
    var bad := |nb[rank] - con|;
    var still := s.waitConn - Freed(con, left);
    Tables(if bad > 0 then still + {rank} else still, left[rank := bad],
           s.dialled + Dials(rank, con), s.pos[rank := |s.pos|])
  }

  ghost function Lowered(waitAccept: map<nat, nat>, con: set<nat>): map<nat, nat>
    requires forall r :: r in con ==> r in waitAccept && waitAccept[r] > 0
  {
    map r | r in waitAccept :: if r in con then waitAccept[r] - 1 else waitAccept[r]
  }

  ghost function Freed(con: set<nat>, left: map<nat, nat>): set<nat> {
    set r | r in con && r in left && left[r] == 0
  }

  ghost function Dials(rank: nat, con: set<nat>): multiset<(nat, nat)> {
    multiset(set r | r in con :: (rank, r))
  }

  // The neighbours that wait are exactly those that have a rank.
  lemma WaitersAre(nb: map<nat, set<nat>>, n: nat, s: Tables, rank: nat)
    requires Symmetric(nb, n) && Inv(nb, s) && rank in nb && rank !in s.pos
    ensures nb[rank] * s.waitConn == nb[rank] * s.pos.Keys
    ensures forall r :: r in nb[rank] * s.waitConn ==> r in s.waitAccept && s.waitAccept[r] > 0
  {
    forall r | r in nb[rank] * s.pos.Keys ensures r in s.waitConn && r in s.waitAccept && s.waitAccept[r] > 0 {
      assert Linked(nb, rank, r) && NodeOk(nb, s, r);
      assert rank in nb[r] - s.pos.Keys;
    }
  }

  lemma RestIs(all: set<nat>, con: set<nat>, have: set<nat>, rank: nat)
    requires con == all * have && rank !in all
    ensures all - (have + {rank}) == all - con
  {
  }

  // One node less to wait for, if it was waited for.
  lemma OneLess(all: set<nat>, have: set<nat>, rank: nat)
    requires rank !in have
    ensures |all - (have + {rank})| == |all - have| - if rank in all then 1 else 0
  {
    assert all - (have + {rank}) == (all - have) - {rank};
  }

  lemma KeysGrow(pos: map<nat, nat>, rank: nat)
    requires rank !in pos
    ensures pos[rank := |pos|].Keys == pos.Keys + {rank} && |pos[rank := |pos|]| == |pos| + 1
  {
    assert |pos[rank := |pos|].Keys| == |pos.Keys| + 1;
  }

  lemma AssignKeepsNodes(nb: map<nat, set<nat>>, n: nat, s: Tables, rank: nat, a: nat)
    requires Symmetric(nb, n) && Inv(nb, s) && rank in nb && rank !in s.pos
    requires forall r :: r in nb[rank] * s.waitConn ==> r in s.waitAccept && s.waitAccept[r] > 0
    requires nb[rank] * s.waitConn == nb[rank] * s.pos.Keys
    ensures NodeOk(nb, Assigned(nb, s, rank), a)
  {
    var s', con := Assigned(nb, s, rank), nb[rank] * s.waitConn;
    KeysGrow(s.pos, rank);
    assert NodeOk(nb, s, a) && Linked(nb, rank, rank) && Linked(nb, a, rank) && Linked(nb, rank, a);
    if a == rank {
      RestIs(nb[rank], con, s.pos.Keys, rank);
      assert s'.waitAccept[rank] == |nb[rank] - con|;
      assert rank !in s.waitConn;
    } else if a in s.pos {
      OneLess(nb[a], s.pos.Keys, rank);
      assert a in con <==> rank in nb[a];
      assert s'.waitAccept[a] == if a in con then s.waitAccept[a] - 1 else s.waitAccept[a];
    }
  }

  lemma AssignKeepsLinks(nb: map<nat, set<nat>>, s: Tables, rank: nat, b: nat, a: nat)
    requires Inv(nb, s) && rank in nb && rank !in s.pos
    requires forall r :: r in nb[rank] * s.waitConn ==> r in s.waitAccept && s.waitAccept[r] > 0
    requires nb[rank] * s.waitConn == nb[rank] * s.pos.Keys
    ensures LinkOk(nb, Assigned(nb, s, rank), b, a)
  {
    assert LinkOk(nb, s, b, a) && NodeOk(nb, s, a) && NodeOk(nb, s, b);
    var con := nb[rank] * s.waitConn;
    assert Dials(rank, con)[(b, a)] == if b == rank && a in con then 1 else 0;
  }

  lemma AssignKeeps(nb: map<nat, set<nat>>, n: nat, s: Tables, rank: nat)
    requires Symmetric(nb, n) && Inv(nb, s) && rank in nb && rank !in s.pos
    requires forall r :: r in nb[rank] * s.waitConn ==> r in s.waitAccept && s.waitAccept[r] > 0
    ensures Inv(nb, Assigned(nb, s, rank))
  {
    WaitersAre(nb, n, s, rank);
    var s' := Assigned(nb, s, rank);
    KeysGrow(s.pos, rank);
    assert s'.waitConn <= s.waitConn + {rank};
    forall a ensures NodeOk(nb, s', a) { AssignKeepsNodes(nb, n, s, rank, a); }
    forall a, b ensures LinkOk(nb, s', b, a) { AssignKeepsLinks(nb, s, rank, b, a); }
  }

  lemma SplitSize(all: set<nat>, part: set<nat>)
    requires part <= all
    ensures |all| - |part| == |all - part|
  {
    assert all == part + (all - part);
  }

  class Tracker {
    const n: nat
    const nb: map<nat, set<nat>>
    var waitConn: set<nat>
    var waitAccept: map<nat, nat>
    ghost var dialled: multiset<(nat, nat)>
    ghost var pos: map<nat, nat>

    ghost function S(): Tables
      reads this
    {
      Tables(waitConn, waitAccept, dialled, pos)
    }

    ghost predicate Valid()
      reads this
    {
      Symmetric(nb, n) && Inv(nb, S())
    }

    constructor (n: nat, nb: map<nat, set<nat>>)
      requires Symmetric(nb, n)
      ensures Valid() && S() == Tables({}, map[], multiset{}, map[]) && this.n == n && this.nb == nb
    {
      this.n, this.nb := n, nb;
      waitConn, waitAccept, dialled, pos := {}, map[], multiset{}, map[];
    }

    // Count down the nodes dialled; those that wait for nobody else stop waiting.
    method CountDown(conset: set<nat>) returns (rmset: set<nat>)
      requires forall r :: r in conset ==> r in waitAccept && waitAccept[r] > 0
      modifies this`waitAccept
      ensures waitAccept == Lowered(old(waitAccept), conset) && rmset == Freed(conset, waitAccept)
    {
      rmset := {};
      var todo := conset;
      while todo != {}
        invariant todo <= conset && waitAccept.Keys == old(waitAccept).Keys
        invariant forall r :: r in waitAccept ==>
          waitAccept[r] == if r in conset - todo then old(waitAccept)[r] - 1 else old(waitAccept)[r]
        invariant rmset == set r | r in conset - todo && waitAccept[r] == 0
      {
        var r :| r in todo;
        waitAccept := waitAccept[r := waitAccept[r] - 1];
        if waitAccept[r] == 0 {
          rmset := rmset + {r};
        }
        todo := todo - {r};
      }
    }

    // A node gets its rank: it dials the neighbours that wait for connections,
    // and itself waits for the others.
    method AssignRank(rank: nat)
      requires Valid() && rank in nb && rank !in pos
      modifies this
      ensures Valid() && pos == old(pos)[rank := |old(pos)|]
    {
      WaitersAre(nb, n, S(), rank);
      AssignKeeps(nb, n, S(), rank);
      UpdateTables(rank);
    }

    method UpdateTables(rank: nat)
      requires rank in nb && forall r :: r in nb[rank] * waitConn ==> r in waitAccept && waitAccept[r] > 0
      modifies this
      ensures S() == Assigned(nb, old(S()), rank)
    {
      var badset := nb[rank];
      var conset := badset * waitConn;
      var rmset := CountDown(conset);
      SplitSize(badset, conset);
      var accept := |badset| - |conset|;
      waitConn := if accept > 0 then waitConn - rmset + {rank} else waitConn - rmset;
      waitAccept := waitAccept[rank := accept];
      dialled := dialled + Dials(rank, conset);
      pos := pos[rank := |pos|];
    }
  }

  ghost predicate Positions(pos: map<nat, nat>, ranks: seq<nat>, k: nat) {
    && k <= |ranks| && |pos| == k && pos.Keys == Elements(ranks[..k])
    && forall i :: 0 <= i < k ==> ranks[i] in pos && pos[ranks[i]] == i
  }

  lemma NextPosition(pos: map<nat, nat>, ranks: seq<nat>, k: nat)
    requires Positions(pos, ranks, k) && k < |ranks| && Permutation(ranks, |ranks|)
    ensures ranks[k] !in pos && Positions(pos[ranks[k] := k], ranks, k + 1)
  {
    assert ranks[k] !in ranks[..k];
    KeysGrow(pos, ranks[k]);
    ElementsNext(ranks, k);
  }

  lemma NobodyWaits(nb: map<nat, set<nat>>, n: nat, s: Tables, ranks: seq<nat>)
    requires Symmetric(nb, n) && Inv(nb, s) && Permutation(ranks, n) && Positions(s.pos, ranks, n)
    ensures s.waitConn == {}
  {
    assert ranks[..n] == ranks && s.pos.Keys == Below(n);
    forall a: nat ensures a !in s.waitConn {
      assert NodeOk(nb, s, a);
      if a in s.pos {
        forall z: nat ensures z !in nb[a] - s.pos.Keys { assert Linked(nb, a, z); }
        assert nb[a] - s.pos.Keys == {};
      }
    }
  }

  // The batch assignment of a fresh start, in any order of ranks: when all have
  // theirs, nobody waits and each link has been dialled once.
  method AssignAll(
      n: nat, nb: map<nat, set<nat>>,
      ranks: seq<nat>) returns (waitConn: set<nat>, ghost dialled: multiset<(nat, nat)>)
    requires Symmetric(nb, n) && Permutation(ranks, n)
    ensures waitConn == {}
    ensures forall i, j :: 0 <= i < j < n ==>
      dialled[(ranks[j], ranks[i])] == (if ranks[i] in nb[ranks[j]] then 1 else 0) && dialled[(ranks[i], ranks[j])] == 0
  {
    var t := new Tracker(n, nb);
    for k := 0 to n
      invariant t.Valid() && t.nb == nb && Positions(t.pos, ranks, k)
    {
      NextPosition(t.pos, ranks, k);
      t.AssignRank(ranks[k]);
    }
    waitConn, dialled := t.waitConn, t.dialled;
    NobodyWaits(nb, n, t.S(), ranks);
    forall i, j | 0 <= i < j < n
      ensures dialled[(ranks[j], ranks[i])] == (if ranks[i] in nb[ranks[j]] then 1 else 0)
      ensures dialled[(ranks[i], ranks[j])] == 0
    {
      assert LinkOk(nb, t.S(), ranks[j], ranks[i]) && LinkOk(nb, t.S(), ranks[i], ranks[j]);
      assert t.pos[ranks[i]] == i && t.pos[ranks[j]] == j;
    }
  }

  ghost predicate NeighbourMap(nb: map<nat, set<nat>>, l: Links, n: nat) {
    nb.Keys == Below(n) && forall a: nat {:trigger NeighboursAt(nb, l, a)} :: a < n ==> NeighboursAt(nb, l, a)
  }

  ghost predicate NeighboursAt(nb: map<nat, set<nat>>, l: Links, a: nat) {
    a in nb && a in l.tree && a in l.ring && nb[a] == LinkSet(l, a)
  }

  lemma LinkMapSymmetric(n: nat, rmap: map<nat, nat>, rlst: seq<nat>, l: Links, nb: map<nat, set<nat>>)
    requires n == |rlst| && Renaming(rmap, rlst) && NeighbourMap(nb, l, n)
    requires forall x: nat :: Carried(n, rmap, l.tree, l.parent, x)
    requires forall i: nat :: i < n ==> i in l.ring && l.ring[i] == (Pred(i, n), Succ(i, n))
    ensures Symmetric(nb, n)
  {
    forall a: nat, b: nat ensures Linked(nb, a, b) {
      if a in nb && b in nb[a] {
        assert NeighboursAt(nb, l, a) && (b < n ==> NeighboursAt(nb, l, b));
        LinkSetsSymmetric(n, rmap, rlst, l, a, a);
        LinkSetsSymmetric(n, rmap, rlst, l, a, b);
      }
    }
  }

  // accept_slaves for a fresh start of n nodes, whatever order the ranks are
  // handed out in: the links of the tree and of the ring get made, each once, and
  // no others.
  method FreshStart(n: nat, order: nat -> seq<nat>, ranks: seq<nat>)
    returns (waitConn: set<nat>, ghost dialled: multiset<(nat, nat)>, ghost rmap: map<nat, nat>)
    requires n > 0 && Orders(n, order) && Permutation(ranks, n)
    ensures waitConn == {} && Renaming(rmap, ShareRing(n, order, 0)) && |ShareRing(n, order, 0)| == n
    ensures forall i, j :: 0 <= i < j < n ==>
      && dialled[(ranks[j], ranks[i])] == (if Neighbours(n, ShareRing(n, order, 0), ranks[j], ranks[i]) then 1 else 0)
      && dialled[(ranks[i], ranks[j])] == 0
  {
    var l, nb;
    l, nb, rmap := LayOut(n, order);
    waitConn, dialled := AssignAll(n, nb, ranks);
    ghost var rlst := ShareRing(n, order, 0);
    forall i, j | 0 <= i < j < n
      ensures dialled[(ranks[j], ranks[i])] == (if Neighbours(n, rlst, ranks[j], ranks[i]) then 1 else 0)
      ensures dialled[(ranks[i], ranks[j])] == 0
    {
      assert NeighboursAt(nb, l, ranks[j]);
      LinksAre(n, rmap, rlst, l, ranks[j], ranks[i]);
    }
  }

  // Ranks a and b are next to each other on the ring, or the nodes that have these
  // ranks are parent and child in the tree.
  ghost predicate Neighbours(n: nat, rlst: seq<nat>, a: nat, b: nat)
    requires |rlst| == n && a < n && b < n
  {
    || b == Succ(a, n) || a == Succ(b, n)
    || Parent(rlst[a]) == rlst[b] || Parent(rlst[b]) == rlst[a]
  }

  lemma LinksAre(n: nat, rmap: map<nat, nat>, rlst: seq<nat>, l: Links, a: nat, b: nat)
    requires n == |rlst| && Renaming(rmap, rlst) && a < n && b < n && a != b && a in l.tree && a in l.ring
    requires Carried(n, rmap, l.tree, l.parent, rlst[a]) && l.ring[a] == (Pred(a, n), Succ(a, n))
    ensures b in LinkSet(l, a) <==> Neighbours(n, rlst, a, b)
  {
    LinkSetIs(n, l, a, b);
    MappedMember(n, rmap, rlst, rlst[a], rlst[b]);
    NeighborsSymmetric(rlst[a], rlst[b], n);
  }

  method LayOut(n: nat, order: nat -> seq<nat>) returns (l: Links, nb: map<nat, set<nat>>, ghost rmap: map<nat, nat>)
    requires n > 0 && Orders(n, order)
    ensures NeighbourMap(nb, l, n) && Symmetric(nb, n)
    ensures Renaming(rmap, ShareRing(n, order, 0)) && |ShareRing(n, order, 0)| == n
    ensures forall x: nat :: Carried(n, rmap, l.tree, l.parent, x)
    ensures forall i: nat :: i < n ==> i in l.ring && l.ring[i] == (Pred(i, n), Succ(i, n))
  {
    l, rmap := GetLinkMap(n, order);
    ghost var rlst := ShareRing(n, order, 0);
    RingIsPermutation(n, order);
    forall a: nat | a < n ensures a in l.tree && a in l.ring {
      LinkSetsSymmetric(n, rmap, rlst, l, a, a);
    }
    nb := Collect(l, n);
    LinkMapSymmetric(n, rmap, rlst, l, nb);
  }

  method Collect(l: Links, n: nat) returns (nb: map<nat, set<nat>>)
    requires forall a: nat :: a < n ==> a in l.tree && a in l.ring
    ensures NeighbourMap(nb, l, n)
  {
    nb := map[];
    for a := 0 to n
      invariant NeighbourMap(nb, l, a)
    {
      ghost var nb0 := nb;
      nb := nb[a := LinkSet(l, a)];
      forall b: nat | b <= a ensures NeighboursAt(nb, l, b) { assert b < a ==> NeighboursAt(nb0, l, b); }
    }
  }
}
