/** Whole runs of the hash map, compared with runs of a plain map. */
module HashMapRuns {
  import opened Prelude
  import opened HashMapModel

  datatype Op<K, V> =
    | InsertUnique(key: K, val: V)
    | Insert(key: K, val: V)
    | Assign(key: K, val: V)
    | Subscript(key: K)
    | Get(key: K)
    | Erase(key: K)

  datatype Answer<V> = Done(isNew: bool) | Value(val: V) | Lookup(found: Option<V>) | Erased(count: nat)

  // What a plain map does and answers; init is the default value.
  function Step<K, V>(m: map<K, V>, op: Op<K, V>, init: V): (map<K, V>, Answer<V>) {
    match op
    case InsertUnique(k, v) => (m[k := v], Done(true))
    case Insert(k, v) => if k in m then (m, Done(false)) else (m[k := v], Done(true))
    case Assign(k, v) => (m[k := v], Done(k !in m))
    case Subscript(k) => if k in m then (m, Value(m[k])) else (m[k := init], Value(init))
    case Get(k) => (m, Lookup(if k in m then Some(m[k]) else None))
    case Erase(k) => (m - {k}, Erased(if k in m then 1 else 0))
  }

  ghost function Answers<K, V>(m: map<K, V>, ops: seq<Op<K, V>>, init: V): seq<Answer<V>>
    decreases |ops|
  {
    if ops == [] then []
    else
      var (m', a) := Step(m, ops[0], init);
      [a] + Answers(m', ops[1..], init)
  }

  // Unique inserts are only used on absent keys.
  ghost predicate Legal<K, V>(m: map<K, V>, ops: seq<Op<K, V>>, init: V)
    decreases |ops|
  {
    ops != [] ==>
      && (ops[0].InsertUnique? ==> ops[0].key !in m)
      && Legal(Step(m, ops[0], init).0, ops[1..], init)
  }

  method Do<K, V>(h: HashMap<K, V>, op: Op<K, V>) returns (a: Answer<V>)
    requires h.Valid() && RequiredBuckets(h.numFilled) + 2 < MAX_SIZE
    requires op.InsertUnique? ==> op.key !in h.Contents
    modifies h, h.index, h.pairs
    ensures h.Valid() && h.numFilled <= old(h.numFilled) + 1
    ensures (h.index == old(h.index) || fresh(h.index)) && (h.pairs == old(h.pairs) || fresh(h.pairs))
    ensures (h.Contents, a) == Step(old(h.Contents), op, h.valueInit)
  {
    match op {
      case InsertUnique(k, v) =>
        var _ := h.InsertUnique(k, v);
        a := Done(true);
      case Insert(k, v) =>
        var _, isNew := h.Insert(k, v);
        a := Done(isNew);
      case Assign(k, v) =>
        var _, isNew := h.InsertOrAssign(k, v);
        a := Done(isNew);
      case Subscript(k) =>
        var slot := h.Subscript(k);
        a := Value(h.pairs[slot].val);
      case Get(k) =>
        var found := h.TryGet(k);
        a := Lookup(found);
      case Erase(k) =>
        var count := h.Erase(k);
        a := Erased(count);
    }
  }

  // For every hash function and every run of operations, the table answers
  // exactly as a map does.
  method Run<K(==), V>(hasher: K -> nat, init: V, ops: seq<Op<K, V>>) returns (answers: seq<Answer<V>>)
    requires Legal(map[], ops, init) && RequiredBuckets(|ops|) + 2 < MAX_SIZE
    ensures answers == Answers(map[], ops, init)
  {
    var h := new HashMap<K, V>(hasher, init);
    answers := [];
    for i := 0 to |ops|
      invariant h.Valid() && fresh(h) && fresh(h.index) && fresh(h.pairs)
      invariant h.numFilled <= i && h.valueInit == init
      invariant OnCourse(answers, h.Contents, ops, i, init)
    {
      RequiredGrows(h.numFilled, |ops|);
      NextOnCourse(answers, h.Contents, ops, i, init);
      var a := Do(h, ops[i]);
      answers := answers + [a];
    }
    assert ops[|ops|..] == [];
  }

  // The answers so far, and those that the contents will give, are the map's answers.
  ghost predicate OnCourse<K, V>(answers: seq<Answer<V>>, m: map<K, V>, ops: seq<Op<K, V>>, i: nat, init: V) {
    && i <= |ops| && Legal(m, ops[i..], init) && Legal(map[], ops, init)
    && answers + Answers(m, ops[i..], init) == Answers(map[], ops, init)
  }

  lemma NextOnCourse<K, V>(answers: seq<Answer<V>>, m: map<K, V>, ops: seq<Op<K, V>>, i: nat, init: V)
    requires OnCourse(answers, m, ops, i, init) && i < |ops|
    ensures ops[i].InsertUnique? ==> ops[i].key !in m
    ensures var (m', a) := Step(m, ops[i], init);
      OnCourse(answers + [a], m', ops, i + 1, init)
  {
    Unfold(m, ops, i, init);
    var (m', a) := Step(m, ops[i], init);
    assert answers + ([a] + Answers(m', ops[i + 1..], init)) == (answers + [a]) + Answers(m', ops[i + 1..], init);
  }

  lemma Unfold<K, V>(m: map<K, V>, ops: seq<Op<K, V>>, i: nat, init: V)
    requires i < |ops| && Legal(m, ops[i..], init)
    ensures ops[i].InsertUnique? ==> ops[i].key !in m
    ensures var (m', a) := Step(m, ops[i], init);
      Legal(m', ops[i + 1..], init) && Answers(m, ops[i..], init) == [a] + Answers(m', ops[i + 1..], init)
  {
    assert ops[i..][0] == ops[i] && ops[i..][1..] == ops[i + 1..];
  }

  lemma RequiredGrows(m: nat, m': nat)
    requires m <= m'
    ensures RequiredBuckets(m) <= RequiredBuckets(m')
  {
  }
}
