/**
  The link topology of the Rabit tracker (comm/tracker/tracker.py): a binary
  tree over the ranks, a ring that visits a node's subtrees one after the other,
  and the relabelling that makes the ring run through the ranks in order.
 */
module TrackerRing {
  import opened Prelude

  // get_neighbor; `/` is floor division on non-negative numbers
  function Neighbors(rank: nat, n: nat): seq<nat> {
    var r := rank + 1;
    (if r > 1 then [r / 2 - 1] else [])
    + (if r * 2 - 1 < n then [r * 2 - 1] else [])
    + (if r * 2 < n then [r * 2] else [])
  }

  // parent_map
  function Parent(r: nat): int {
    (r + 1) / 2 - 1
  }

  // nset - set([parent_map[r]])
  function Children(r: nat, n: nat): set<nat> {
    set x | x in Neighbors(r, n) && x != Parent(r)
  }

  lemma ChildrenAre(r: nat, n: nat)
    requires r < n
    ensures forall x: nat :: x in Children(r, n) <==> x < n && (x == 2 * r + 1 || x == 2 * r + 2)
  {
    forall x: nat ensures x in Children(r, n) <==> x < n && (x == 2 * r + 1 || x == 2 * r + 2) {
      NeighborsAre(r, x, n);
    }
  }

  // Neighbourhood is symmetric.
  lemma NeighborsSymmetric(a: nat, b: nat, n: nat)
    requires a < n && b < n
    ensures b in Neighbors(a, n) <==> a in Neighbors(b, n)
    ensures b in Neighbors(a, n) <==> (Parent(a) == b || Parent(b) == a)
    ensures a !in Neighbors(a, n)
  {
    NeighborsAre(a, b, n);
    NeighborsAre(b, a, n);
    NeighborsAre(a, a, n);
  }

  lemma NeighborsAre(a: nat, b: nat, n: nat)
    requires a < n
    ensures b in Neighbors(a, n) <==> b < n && (Parent(a) == b || Parent(b) == a)
  {
    var s := Neighbors(a, n);
    if a > 0 { assert s[0] == (a + 1) / 2 - 1; }
    if 2 * a + 1 < n { assert s[if a > 0 then 1 else 0] == 2 * a + 1; }
    if 2 * a + 2 < n { assert s[if a > 0 then 2 else 1] == 2 * a + 2; }
  }

  // ---------------------------------------------------------------- the ring list

  // The order in which a Python set of children is iterated: any.
  ghost predicate Orders(n: nat, order: nat -> seq<nat>) {
    forall r: nat {:trigger order(r)} :: r < n ==>
      && Elements(order(r)) == Children(r, n)
      && Distinct(order(r))
  }

  // A node has its at most two sons as children.
  lemma KidsAre(n: nat, order: nat -> seq<nat>, r: nat)
    requires r < n && Orders(n, order)
    ensures forall i :: 0 <= i < |order(r)| ==>
      r < order(r)[i] < n && (order(r)[i] == 2 * r + 1 || order(r)[i] == 2 * r + 2)
    ensures 2 * r + 1 < n ==> 2 * r + 1 in order(r)
    ensures 2 * r + 2 < n ==> 2 * r + 2 in order(r)
    ensures |order(r)| <= 2
  {
    ChildrenAre(r, n);
    var kids := order(r);
    forall i | 0 <= i < |kids| ensures kids[i] < n && (kids[i] == 2 * r + 1 || kids[i] == 2 * r + 2) {
      assert kids[i] in Elements(kids) && kids[i] in Children(r, n);
    }
    if 2 * r + 1 < n { assert 2 * r + 1 in Children(r, n) && 2 * r + 1 in Elements(kids); }
    if 2 * r + 2 < n { assert 2 * r + 2 in Children(r, n) && 2 * r + 2 in Elements(kids); }
    assert |kids| >= 3 ==> kids[0] != kids[1] && kids[0] != kids[2] && kids[1] != kids[2];
  }

  function Reverse(s: seq<nat>): seq<nat> {
    if s == [] then [] else Reverse(s[1..]) + [s[0]]
  }

  lemma {:induction false} ReverseKeeps(s: seq<nat>)
    ensures multiset(Reverse(s)) == multiset(s)
  {
    if s != [] {
      ReverseKeeps(s[1..]);
      assert s == [s[0]] + s[1..];
    }
  }

  // find_share_ring
  function ShareRing(n: nat, order: nat -> seq<nat>, r: nat): (ring: seq<nat>)
    requires r < n && Orders(n, order)
    ensures ring != [] && ring[0] == r
    decreases n - r, 1, 0
  {
    KidsAre(n, order, r);
    [r] + ShareRings(n, order, r, order(r))
  }

  // The lists of the children, the last one reversed.
  function ShareRings(n: nat, order: nat -> seq<nat>, r: nat, kids: seq<nat>): seq<nat>
    requires r < n && Orders(n, order) && forall i :: 0 <= i < |kids| ==> r < kids[i] < n
    decreases n - r, 0, |kids|
  {
    if kids == [] then []
    else
      var vlst := ShareRing(n, order, kids[0]);
      (if |kids| == 1 then Reverse(vlst) else vlst) + ShareRings(n, order, r, kids[1..])
  }

  // a is x or above it in the tree.
  ghost predicate Above(a: nat, x: nat)
    decreases x
  {
    a == x || (a < x && Above(a, (x + 1) / 2 - 1))
  }

  lemma {:induction false} RootAbove(x: nat)
    ensures Above(0, x)
    decreases x
  {
    if x > 0 { RootAbove((x + 1) / 2 - 1); }
  }

  // Below r lie exactly the nodes below one of its two sons, and never both.
  lemma {:induction false} BelowSons(r: nat, x: nat)
    ensures Above(r, x) && x != r <==> Above(2 * r + 1, x) || Above(2 * r + 2, x)
    ensures !(Above(2 * r + 1, x) && Above(2 * r + 2, x))
    decreases x
  {
    if x > r {
      var p := (x + 1) / 2 - 1;
      if p != r && p < x { BelowSons(r, p); }
    }
  }

  // How many of the kids x lies below.
  ghost function Hits(kids: seq<nat>, x: nat): nat {
    if kids == [] then 0 else (if Above(kids[0], x) then 1 else 0) + Hits(kids[1..], x)
  }

  lemma KidsHits(n: nat, order: nat -> seq<nat>, r: nat, x: nat)
    requires r < n && Orders(n, order) && x < n
    ensures Hits(order(r), x) == if Above(r, x) && x != r then 1 else 0
  {
    KidsAre(n, order, r);
    BelowSons(r, x);
    AboveIsBelow(2 * r + 1, x);
    AboveIsBelow(2 * r + 2, x);
    var kids := order(r);
    if |kids| == 2 {
      assert kids[0] != kids[1] && kids[1..][1..] == [];
      assert Hits(kids[1..], x) == if Above(kids[1], x) then 1 else 0;
    } else if |kids| == 1 {
      assert kids[1..] == [];
    }
  }

  lemma AboveIsBelow(a: nat, x: nat)
    ensures Above(a, x) ==> a <= x
  {
  }

  ghost function Occurs(s: seq<nat>, x: nat): nat {
    multiset(s)[x]
  }

  // The list of r holds each node of its subtree once and no other node.
  lemma {:induction false} RingCounts(n: nat, order: nat -> seq<nat>, r: nat, x: nat)
    requires r < n && Orders(n, order)
    ensures Occurs(ShareRing(n, order, r), x) == if x < n && Above(r, x) then 1 else 0
    decreases n - r, 1, 0
  {
    KidsAre(n, order, r);
    RingsCount(n, order, r, order(r), x);
    if x < n { KidsHits(n, order, r, x); }
  }

  lemma {:induction false} RingsCount(n: nat, order: nat -> seq<nat>, r: nat, kids: seq<nat>, x: nat)
    requires r < n && Orders(n, order) && forall i :: 0 <= i < |kids| ==> r < kids[i] < n
    ensures Occurs(ShareRings(n, order, r, kids), x) == if x < n then Hits(kids, x) else 0
    decreases n - r, 0, |kids|
  {
    if kids != [] {
      RingCounts(n, order, kids[0], x);
      ReverseKeeps(ShareRing(n, order, kids[0]));
      RingsCount(n, order, r, kids[1..], x);
    }
  }

  ghost predicate Permutation(s: seq<nat>, n: nat) {
    && |s| == n && (forall i :: 0 <= i < n ==> s[i] < n)
    && (forall i, j :: 0 <= i < j < n ==> s[i] != s[j])
    && (forall x: nat :: x < n ==> x in s)
  }

  // find_share_ring from the root visits every rank exactly once.
  lemma RingIsPermutation(n: nat, order: nat -> seq<nat>)
    requires n > 0 && Orders(n, order)
    ensures Permutation(ShareRing(n, order, 0), n)
  {
    var ring := ShareRing(n, order, 0);
    forall x: nat ensures Occurs(ring, x) == if x < n then 1 else 0 {
      RingCounts(n, order, 0, x);
      RootAbove(x);
    }
    OnceEach(ring, n);
  }

  lemma OnceEach(s: seq<nat>, n: nat)
    requires forall x: nat :: Occurs(s, x) == if x < n then 1 else 0
    ensures Permutation(s, n)
  {
    forall i | 0 <= i < |s| ensures s[i] < n { assert s[i] in multiset(s) && Occurs(s, s[i]) > 0; }
    forall x: nat | x < n ensures x in s { assert Occurs(s, x) == 1 && x in multiset(s); }
    forall i, j | 0 <= i < j < |s| ensures s[i] != s[j] {
      assert s == s[..j] + [s[j]] + s[j + 1..];
      assert multiset(s) == multiset(s[..j]) + multiset{s[j]} + multiset(s[j + 1..]);
      assert Occurs(s, s[j]) == 1;
      assert s[i] in multiset(s[..j]);
    }
    forall x: nat ensures multiset(s)[x] == multiset(Below(n))[x] { assert Occurs(s, x) == if x < n then 1 else 0; }
    assert multiset(s) == multiset(Below(n));
    assert |multiset(s)| == |s|;
  }

  // ---------------------------------------------------------------- links shared with the tree

  lemma {:induction false} ReverseAt(s: seq<nat>, k: nat)
    requires k < |s|
    ensures |Reverse(s)| == |s| && Reverse(s)[k] == s[|s| - 1 - k]
  {
    if |s| > 1 { ReverseAt(s[1..], if k < |s| - 1 then k else 0); }
  }

  // The list of a node is the node, then the first child's list, then the last
  // child's list from the back.
  lemma RingShape(n: nat, order: nat -> seq<nat>, r: nat)
    requires r < n && Orders(n, order)
    ensures var kids := order(r);
      && |kids| <= 2 && (forall i :: 0 <= i < |kids| ==> r < kids[i] < n)
      && ShareRing(n, order, r) ==
           if kids == [] then [r]
           else if |kids| == 1 then [r] + Reverse(ShareRing(n, order, kids[0]))
           else [r] + ShareRing(n, order, kids[0]) + Reverse(ShareRing(n, order, kids[1]))
  {
    KidsAre(n, order, r);
    var kids := order(r);
    if |kids| == 1 {
      LastList(n, order, r, kids);
    } else if |kids| == 2 {
      LastList(n, order, r, kids[1..]);
    }
  }

  // The last child's list is reversed.
  lemma LastList(n: nat, order: nat -> seq<nat>, r: nat, kids: seq<nat>)
    requires r < n && Orders(n, order) && |kids| == 1 && r < kids[0] < n
    ensures ShareRings(n, order, r, kids) == Reverse(ShareRing(n, order, kids[0]))
  {
    assert kids[1..] == [] && ShareRings(n, order, r, kids[1..]) == [];
    assert Reverse(ShareRing(n, order, kids[0])) + [] == Reverse(ShareRing(n, order, kids[0]));
  }

  // A node with children is followed by a child when it has two, and the last entry
  // of its list is always a child.
  lemma RingEnds(n: nat, order: nat -> seq<nat>, r: nat)
    requires r < n && Orders(n, order) && order(r) != []
    ensures var ring, kids := ShareRing(n, order, r), order(r);
      && |ring| >= 2 && ring[|ring| - 1] == kids[|kids| - 1] && ring[|ring| - 1] in Children(r, n)
      && ring[1] == kids[0] && ring[1] in Children(r, n)
  {
    RingShape(n, order, r);
    var kids := order(r);
    var last := ShareRing(n, order, kids[|kids| - 1]);
    ReverseAt(last, |last| - 1);
    forall i | 0 <= i < |kids| ensures kids[i] in Children(r, n) { assert kids[i] in Elements(kids); }
    if |kids| == 1 { OnlyChildIsLeaf(n, order, r); }
  }

  // An only child has no children.
  lemma OnlyChildIsLeaf(n: nat, order: nat -> seq<nat>, r: nat)
    requires r < n && Orders(n, order) && |order(r)| == 1
    ensures order(r)[0] < n && order(order(r)[0]) == [] && ShareRing(n, order, order(r)[0]) == [order(r)[0]]
    ensures Reverse([order(r)[0]]) == [order(r)[0]]
  {
    KidsAre(n, order, r);
    var c := order(r)[0];
    assert 2 * r + 2 >= n && c == 2 * r + 1;
    ChildrenAre(c, n);
    assert Children(c, n) == {};
    DistinctElements(order(c));
    assert [c][1..] == [];
  }

  // a and b are next to each other in a list.
  ghost predicate Beside(s: seq<nat>, a: nat, b: nat) {
    exists i {:trigger s[i]} :: 0 <= i && i + 1 < |s| && ((s[i] == a && s[i + 1] == b) || (s[i] == b && s[i + 1] == a))
  }

  lemma BesideWithin(s: seq<nat>, lo: seq<nat>, hi: seq<nat>, a: nat, b: nat)
    requires Beside(s, a, b)
    ensures Beside(lo + s + hi, a, b)
  {
    var i :| 0 <= i && i + 1 < |s| && ((s[i] == a && s[i + 1] == b) || (s[i] == b && s[i + 1] == a));
    var t := lo + s + hi;
    assert t[|lo| + i] == s[i] && t[|lo| + i + 1] == s[i + 1];
  }

  lemma BesideReversed(s: seq<nat>, a: nat, b: nat)
    requires Beside(s, a, b)
    ensures Beside(Reverse(s), a, b)
  {
    var i :| 0 <= i && i + 1 < |s| && ((s[i] == a && s[i + 1] == b) || (s[i] == b && s[i + 1] == a));
    var k := |s| - 2 - i;
    ReverseAt(s, k);
    ReverseAt(s, k + 1);
    assert Reverse(s)[k] == s[i + 1] && Reverse(s)[k + 1] == s[i];
  }

  // Every node with children is beside the first of them on the ring.
  lemma {:induction false} BesideFirstChild(n: nat, order: nat -> seq<nat>, r: nat, x: nat)
    requires r < n && Orders(n, order) && x < n && Above(r, x) && order(x) != []
    ensures Beside(ShareRing(n, order, r), x, order(x)[0])
    decreases n - r
  {
    RingShape(n, order, r);
    var ring, kids := ShareRing(n, order, r), order(r);
    if x == r {
      RingEnds(n, order, r);
      assert ring[0] == r && ring[0 + 1] == kids[0];
    } else {
      var i := KidAbove(n, order, r, x);
      var vlst := ShareRing(n, order, kids[i]);
      BesideFirstChild(n, order, kids[i], x);
      if i == |kids| - 1 {
        BesideReversed(vlst, x, order(x)[0]);
        var before := if |kids| == 1 then [r] else [r] + ShareRing(n, order, kids[0]);
        BesideWithin(Reverse(vlst), before, [], x, order(x)[0]);
        assert ring == before + Reverse(vlst) + [];
      } else {
        BesideWithin(vlst, [r], Reverse(ShareRing(n, order, kids[1])), x, order(x)[0]);
      }
    }
  }

  // A node below r is below one of its children.
  lemma KidAbove(n: nat, order: nat -> seq<nat>, r: nat, x: nat) returns (i: nat)
    requires r < n && Orders(n, order) && x < n && Above(r, x) && x != r
    ensures i < |order(r)| && Above(order(r)[i], x)
  {
    KidsAre(n, order, r);
    BelowSons(r, x);
    var c := if Above(2 * r + 1, x) then 2 * r + 1 else 2 * r + 2;
    AboveIsBelow(c, x);
    i :| i < |order(r)| && order(r)[i] == c;
  }

  // ---------------------------------------------------------------- maps

  ghost predicate TreeAt(tree: map<nat, seq<nat>>, parent: map<nat, int>, n: nat, r: nat) {
    r in tree && r in parent && tree[r] == Neighbors(r, n) && parent[r] == Parent(r)
  }

  method GetTree(n: nat) returns (tree: map<nat, seq<nat>>, parent: map<nat, int>)
    ensures forall r: nat :: r < n ==> TreeAt(tree, parent, n, r)
  {
    tree, parent := map[], map[];
    for r := 0 to n
      invariant forall x: nat :: x < r ==> TreeAt(tree, parent, n, x)
    {
      ghost var tree0, parent0 := tree, parent;
      tree := tree[r := Neighbors(r, n)];
      parent := parent[r := Parent(r)];
      forall x: nat | x <= r ensures TreeAt(tree, parent, n, x) { assert x < r ==> TreeAt(tree0, parent0, n, x); }
    }
  }

  // (i + 1) % n and (i + n - 1) % n for i < n
  function Succ(i: nat, n: nat): nat {
    if i + 1 < n then i + 1 else 0
  }

  function Pred(i: nat, n: nat): int {
    if i > 0 then i - 1 else n - 1
  }

  lemma WrapAround(i: nat, n: nat)
    requires i < n
    ensures (i + 1) % n == Succ(i, n) && (i + n - 1) % n == Pred(i, n)
  {
    if i + 1 < n { DivModUnique(i + 1, n, 0, i + 1); } else { DivModUnique(n, n, 1, 0); }
    if i > 0 { DivModUnique(i + n - 1, n, 1, i - 1); } else { DivModUnique(n - 1, n, 0, n - 1); }
  }

  // The entry at i lies between its neighbours in the list.
  ghost predicate RingAt(ring: map<nat, (nat, nat)>, rlst: seq<nat>, i: nat) {
    i < |rlst| ==> rlst[i] in ring && ring[rlst[i]] == (rlst[Pred(i, |rlst|)], rlst[Succ(i, |rlst|)])
  }

  ghost predicate RingOf(ring: map<nat, (nat, nat)>, rlst: seq<nat>) {
    ring.Keys == Elements(rlst) && forall i {:trigger RingAt(ring, rlst, i)} :: RingAt(ring, rlst, i)
  }

  // get_ring, on the list that find_share_ring returned
  method GetRing(rlst: seq<nat>) returns (ring: map<nat, (nat, nat)>)
    requires Permutation(rlst, |rlst|)
    ensures RingOf(ring, rlst)
  {
    var n := |rlst|;
    ring := map[];
    for r := 0 to n
      invariant ring.Keys == Elements(rlst[..r])
      invariant forall i: nat :: i < r ==> RingAt(ring, rlst, i)
    {
      WrapAround(r, n);
      var rprev, rnext := (r + n - 1) % n, (r + 1) % n;
      ghost var before := ring;
      ring := ring[rlst[r] := (rlst[rprev], rlst[rnext])];
      assert rlst[..r + 1] == rlst[..r] + [rlst[r]];
      forall i: nat | i <= r ensures RingAt(ring, rlst, i) { assert i < r ==> RingAt(before, rlst, i); }
    }
    assert rlst[..n] == rlst;
  }

  // The ring is one cycle through all nodes, in which prev undoes next.
  lemma RingIsCycle(rlst: seq<nat>, ring: map<nat, (nat, nat)>, x: nat)
    requires Permutation(rlst, |rlst|) && RingOf(ring, rlst) && x < |rlst|
    ensures x in ring && ring[x].0 in ring && ring[x].1 in ring
    ensures ring[ring[x].1].0 == x && ring[ring[x].0].1 == x
  {
    var n := |rlst|;
    assert x in rlst;
    var i: nat :| i < n && rlst[i] == x;
    var j: nat, k: nat := Succ(i, n), Pred(i, n);
    assert RingAt(ring, rlst, i);
    assert RingAt(ring, rlst, j) && Pred(j, n) == i;
    assert RingAt(ring, rlst, k) && Succ(k, n) == i;
  }

  // rmap: the k-th node on the ring gets label k.
  ghost predicate Labels(rmap: map<nat, nat>, rlst: seq<nat>) {
    rmap.Keys == Elements(rlst) && forall i :: 0 <= i < |rlst| ==> rmap[rlst[i]] == i
  }

  // Follow the ring from 0 and number the nodes.
  method NumberRing(n: nat, ring: map<nat, (nat, nat)>, ghost rlst: seq<nat>) returns (rmap: map<nat, nat>)
    requires n > 0 && Permutation(rlst, n) && rlst[0] == 0 && RingOf(ring, rlst)
    ensures Labels(rmap, rlst)
  {
    rmap := map[0 := 0];
    var k := 0;
    assert rlst[..1] == [0];
    for i := 0 to n - 1
      invariant k == rlst[i] && Numbered(rmap, rlst, i)
    {
      assert RingAt(ring, rlst, i);
      k := ring[k].1;
      NumberedNext(rmap, rlst, i);
      rmap := rmap[k := i + 1];
    }
    assert rlst[..n] == rlst;
  }

  // The nodes up to place i have their places as numbers.
  ghost predicate Numbered(rmap: map<nat, nat>, rlst: seq<nat>, i: nat) {
    i < |rlst| && rmap.Keys == Elements(rlst[..i + 1]) && forall j :: 0 <= j <= i ==>
      rlst[j] in rmap && rmap[rlst[j]] == j
  }

  lemma NumberedNext(rmap: map<nat, nat>, rlst: seq<nat>, i: nat)
    requires Numbered(rmap, rlst, i) && i + 1 < |rlst| && Permutation(rlst, |rlst|)
    ensures Numbered(rmap[rlst[i + 1] := i + 1], rlst, i + 1)
  {
    ElementsNext(rlst, i + 1);
  }

  // ---------------------------------------------------------------- relabelling

  datatype Links = Links(tree: map<nat, seq<nat>>, parent: map<nat, int>, ring: map<nat, (nat, nat)>)

  // rmap renames 0..n-1 and keeps 0; rlst undoes it.
  ghost predicate Renaming(rmap: map<nat, nat>, rlst: seq<nat>) {
    && rlst != [] && rlst[0] == 0 && rmap.Keys == Below(|rlst|)
    && (forall i :: 0 <= i < |rlst| ==> rlst[i] < |rlst| && rmap[rlst[i]] == i)
    && (forall x :: x in rmap ==> rmap[x] < |rlst| && rlst[rmap[x]] == x)
  }

  lemma LabelsRename(rmap: map<nat, nat>, rlst: seq<nat>)
    requires rlst != [] && rlst[0] == 0 && Permutation(rlst, |rlst|) && Labels(rmap, rlst)
    ensures Renaming(rmap, rlst)
  {
    assert Elements(rlst) == Below(|rlst|);
    forall x | x in rmap ensures rmap[x] < |rlst| && rlst[rmap[x]] == x {
      assert x in rlst;
      var i :| 0 <= i < |rlst| && rlst[i] == x;
    }
  }

  function Mapped(rmap: map<nat, nat>, s: seq<nat>): (t: seq<nat>)
    requires forall z :: z in s ==> z in rmap
  {
    seq(|s|, i requires 0 <= i < |s| => rmap[s[i]])
  }

  // The relabelled node y lies between its neighbours in number.
  ghost predicate Placed(rmap: map<nat, nat>, ring': map<nat, (nat, nat)>, n: nat, y: nat) {
    y in rmap && rmap[y] in ring' && ring'[rmap[y]] == (Pred(rmap[y], n), Succ(rmap[y], n))
  }

  lemma {:induction false} RingMapped(rmap: map<nat, nat>, ring: map<nat, (nat, nat)>, rlst: seq<nat>, x: nat)
    requires RingOf(ring, rlst) && Renaming(rmap, rlst) && x < |rlst|
    ensures x in rmap && x in ring && ring[x].0 in rmap && ring[x].1 in rmap
    ensures rmap[ring[x].0] == Pred(rmap[x], |rlst|) && rmap[ring[x].1] == Succ(rmap[x], |rlst|)
  {
    var i := rmap[x];
    assert RingAt(ring, rlst, i) && rlst[i] == x;
  }

  // After relabelling the ring runs through the ranks in order.
  method RelabelRing(
      rmap: map<nat, nat>, ring: map<nat, (nat, nat)>, ghost rlst: seq<nat>) returns (ring': map<nat, (nat, nat)>)
    requires RingOf(ring, rlst) && Renaming(rmap, rlst) && |rmap| == |rlst|
    ensures forall i: nat :: i < |rlst| ==> i in ring' && ring'[i] == (Pred(i, |rlst|), Succ(i, |rlst|))
  {
    var n := |rmap|;
    ring' := map[];
    for x := 0 to n
      invariant forall y: nat {:trigger Placed(rmap, ring', n, y)} :: y < x ==> Placed(rmap, ring', n, y)
    {
      ghost var before := ring';
      RingMapped(rmap, ring, rlst, x);
      ring' := ring'[rmap[x] := (rmap[ring[x].0], rmap[ring[x].1])];
      forall y: nat | y <= x ensures Placed(rmap, ring', n, y) { assert y < x ==> Placed(rmap, before, n, y); }
    }
    forall i: nat | i < n ensures i in ring' && ring'[i] == (Pred(i, n), Succ(i, n)) {
      assert rmap[rlst[i]] == i && Placed(rmap, ring', n, rlst[i]);
    }
  }

  // Node x of the tree is node rmap[x] of the relabelled tree.
  ghost predicate Carried(n: nat, rmap: map<nat, nat>, tree: map<nat, seq<nat>>, parent: map<nat, int>, x: nat) {
    x < n ==>
      && x in rmap && rmap[x] in tree && rmap[x] in parent
      && (forall z :: z in Neighbors(x, n) ==> z in rmap)
      && tree[rmap[x]] == Mapped(rmap, Neighbors(x, n))
      && (if x == 0 then parent[rmap[x]] == -1
          else 0 <= Parent(x) && Parent(x) in rmap && parent[rmap[x]] == rmap[Parent(x) as nat])
  }

  method RelabelTree(rmap: map<nat, nat>, tree: map<nat, seq<nat>>, parent: map<nat, int>, ghost rlst: seq<nat>)
    returns (tree': map<nat, seq<nat>>, parent': map<nat, int>)
    requires Renaming(rmap, rlst) && |rmap| == |rlst|
    requires forall r: nat :: r < |rlst| ==> TreeAt(tree, parent, |rlst|, r)
    ensures forall x: nat :: Carried(|rlst|, rmap, tree', parent', x)
  {
    var n := |rmap|;
    tree', parent' := map[], map[];
    for x := 0 to n
      invariant forall y: nat :: y < x ==> Carried(n, rmap, tree', parent', y)
    {
      NeighborsNamed(rmap, rlst, x);
      assert TreeAt(tree, parent, n, x);
      ghost var tree0, parent0 := tree', parent';
      tree', parent' := MoveNode(rmap, tree, parent, tree', parent', x, rlst);
      forall y: nat | y <= x ensures Carried(n, rmap, tree', parent', y) {
        if y < x { CarriedOn(rmap, rlst, tree0, parent0, x, tree'[rmap[x]], parent'[rmap[x]], y); }
      }
    }
  }

  // tree_map_[rmap[k]] = [rmap[x] for x in v], and likewise for the parent
  method MoveNode(rmap: map<nat, nat>, tree: map<nat, seq<nat>>, parent: map<nat, int>,
                  tree0: map<nat, seq<nat>>, parent0: map<nat, int>, x: nat, ghost rlst: seq<nat>)
    returns (tree': map<nat, seq<nat>>, parent': map<nat, int>)
    requires Renaming(rmap, rlst) && x < |rlst| && TreeAt(tree, parent, |rlst|, x)
    ensures rmap[x] in tree' && rmap[x] in parent'
    ensures tree' == tree0[rmap[x] := tree'[rmap[x]]] && parent' == parent0[rmap[x] := parent'[rmap[x]]]
    ensures Carried(|rlst|, rmap, tree', parent', x)
  {
    NeighborsNamed(rmap, rlst, x);
    tree' := tree0[rmap[x] := Mapped(rmap, tree[x])];
    parent' := parent0[rmap[x] := if x != 0 then rmap[parent[x] as nat] else -1];
  }

  lemma NeighborsNamed(rmap: map<nat, nat>, rlst: seq<nat>, x: nat)
    requires Renaming(rmap, rlst) && x < |rlst|
    ensures forall z :: z in Neighbors(x, |rlst|) ==> z in rmap
    ensures x != 0 ==> 0 <= Parent(x) && Parent(x) in rmap
  {
    forall z | z in Neighbors(x, |rlst|) ensures z in rmap { NeighborsAre(x, z, |rlst|); }
  }

  lemma CarriedOn(rmap: map<nat, nat>, rlst: seq<nat>, tree: map<nat, seq<nat>>, parent: map<nat, int>,
                  x: nat, nodes: seq<nat>, up: int, y: nat)
    requires Renaming(rmap, rlst) && y < x < |rlst| && Carried(|rlst|, rmap, tree, parent, y)
    ensures Carried(|rlst|, rmap, tree[rmap[x] := nodes], parent[rmap[x] := up], y)
  {
    assert rlst[rmap[x]] == x && rlst[rmap[y]] == y;
  }

  method GetLinkMap(n: nat, order: nat -> seq<nat>) returns (l: Links, ghost rmap: map<nat, nat>)
    requires n > 0 && Orders(n, order)
    ensures Renaming(rmap, ShareRing(n, order, 0))
    ensures forall i: nat :: i < n ==> i in l.ring && l.ring[i] == (Pred(i, n), Succ(i, n))
    ensures forall x: nat :: Carried(n, rmap, l.tree, l.parent, x)
    ensures n > 1 ==> RootShares(l, n)
    ensures forall x: nat :: SharesChild(n, order, rmap, x)
  {
    var tree, parent := GetTree(n);
    RingIsPermutation(n, order);
    var rlst := ShareRing(n, order, 0);
    var ring := GetRing(rlst);
    var labels := NumberRing(n, ring, rlst);
    LabelsRename(labels, rlst);
    assert |labels.Keys| == n;
    var ring' := RelabelRing(labels, ring, rlst);
    var tree', parent' := RelabelTree(labels, tree, parent, rlst);
    l, rmap := Links(tree', parent', ring'), labels;
    if n > 1 { RootLinks(n, order, rmap, l); }
    forall x: nat ensures SharesChild(n, order, rmap, x) {
      if x < n && order(x) != [] { ChildIsBeside(n, order, rmap, x); }
    }
  }

  // Both ring neighbours of rank 0 are its neighbours in the tree.
  ghost predicate RootShares(l: Links, n: nat)
    requires n > 0
  {
    0 in l.ring && 0 in l.tree && l.ring[0].0 in l.tree[0] && l.ring[0].1 in l.tree[0]
  }

  lemma RootLinks(n: nat, order: nat -> seq<nat>, rmap: map<nat, nat>, l: Links)
    requires n > 1 && Orders(n, order) && |ShareRing(n, order, 0)| == n && Renaming(rmap, ShareRing(n, order, 0))
    requires 0 in l.ring && l.ring[0] == (Pred(0, n), Succ(0, n)) && Carried(n, rmap, l.tree, l.parent, 0)
    ensures RootShares(l, n)
  {
    var ring := ShareRing(n, order, 0);
    KidsAre(n, order, 0);
    RingEnds(n, order, 0);
    ChildIsNeighbor(0, ring[1], n);
    ChildIsNeighbor(0, ring[n - 1], n);
    MappedMember(n, rmap, ring, 0, ring[1]);
    MappedMember(n, rmap, ring, 0, ring[n - 1]);
  }

  lemma ChildIsNeighbor(r: nat, x: nat, n: nat)
    requires x in Children(r, n)
    ensures x in Neighbors(r, n)
  {
  }

  // Every node with children has the first of them as a neighbour on the ring.
  ghost predicate SharesChild(n: nat, order: nat -> seq<nat>, rmap: map<nat, nat>, x: nat)
    requires n > 0 && Orders(n, order)
  {
    x < n && order(x) != [] ==>
      x in rmap && order(x)[0] in rmap
        && (rmap[order(x)[0]] == rmap[x] + 1 || rmap[x] == rmap[order(x)[0]] + 1)
  }

  lemma ChildIsBeside(n: nat, order: nat -> seq<nat>, rmap: map<nat, nat>, x: nat)
    requires n > 0 && Orders(n, order) && Renaming(rmap, ShareRing(n, order, 0)) && x < n && order(x) != []
    ensures SharesChild(n, order, rmap, x)
  {
    RootAbove(x);
    BesideFirstChild(n, order, 0, x);
    var s, a, b := ShareRing(n, order, 0), x, order(x)[0];
    var i :| 0 <= i && i + 1 < |s| && ((s[i] == a && s[i + 1] == b) || (s[i] == b && s[i + 1] == a));
    assert rmap[s[i]] == i && rmap[s[i + 1]] == i + 1;
  }

  // The relabelled tree: neighbourhood is symmetric, nobody is its own
  // neighbour, the root keeps -1, and every other node's parent is a neighbour.
  lemma LinksAreSound(
      n: nat, rmap: map<nat, nat>, rlst: seq<nat>, tree: map<nat, seq<nat>>, parent: map<nat, int>, a: nat, b: nat)
    requires n == |rlst| && Renaming(rmap, rlst) && a < n && b < n
    requires forall x: nat :: Carried(n, rmap, tree, parent, x)
    ensures a in tree && b in tree && a in parent
    ensures b in tree[a] <==> a in tree[b]
    ensures a !in tree[a] && (forall z :: z in tree[a] ==> z < n)
    ensures if a == 0 then parent[a] == -1 else parent[a] >= 0 && parent[a] in tree[a]
  {
    var x, y := rlst[a], rlst[b];
    assert Carried(n, rmap, tree, parent, x) && Carried(n, rmap, tree, parent, y);
    MappedMember(n, rmap, rlst, x, y);
    MappedMember(n, rmap, rlst, y, x);
    MappedMember(n, rmap, rlst, x, x);
    NeighborsSymmetric(x, y, n);
    if a != 0 {
      assert x != 0;
      NeighborsAre(x, Parent(x), n);
      MappedMember(n, rmap, rlst, x, Parent(x));
    }
  }

  lemma MappedMember(n: nat, rmap: map<nat, nat>, rlst: seq<nat>, x: nat, y: nat)
    requires n == |rlst| && Renaming(rmap, rlst) && x < n && y < n
    requires forall z :: z in Neighbors(x, n) ==> z in rmap
    ensures rmap[y] in Mapped(rmap, Neighbors(x, n)) <==> y in Neighbors(x, n)
    ensures forall z :: z in Mapped(rmap, Neighbors(x, n)) ==> z < n
  {
    var s, t := Neighbors(x, n), Mapped(rmap, Neighbors(x, n));
    if y in s {
      var i :| 0 <= i < |s| && s[i] == y;
      assert t[i] == rmap[y];
    }
    if rmap[y] in t {
      var i :| 0 <= i < |t| && t[i] == rmap[y];
      assert rlst[rmap[s[i]]] == s[i];
    }
  }
}
