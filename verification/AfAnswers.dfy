/**
  What a server answers (AFTensorServer::Response in comm/include/ps/af_tensor_app.h,
  respond in comm/fserver/csrc/public.hpp): pushes of batches are acked by KVHandler
  as they come, everything else is answered when the application responds.
 */
module AfAnswers {
  import opened Prelude
  import opened AfBatch
  import opened AfBatchRuns

  // An answer to a message; a push is answered without a tensor.
  datatype Answer<T> = Answer(msg: Msg<T>, tensor: Option<KeyTensor<T>>)

  // The first place of a key, or the length.
  function FirstIndex(keys: seq<nat>, key: nat): (i: nat)
    ensures i <= |keys| && (i < |keys| ==> keys[i] == key)
    ensures forall j :: 0 <= j < i ==> keys[j] != key
  {
    if keys == [] || keys[0] == key then 0
    else
      var i := FirstIndex(keys[1..], key);
      assert forall j :: 1 <= j < i + 1 ==> keys[j] == keys[1..][j - 1];
      1 + i
  }

  function TensorKeys<T>(tensors: seq<KeyTensor<T>>): (r: seq<nat>)
    ensures |r| == |tensors|
  {
    seq(|tensors|, i requires 0 <= i < |tensors| => tensors[i].key)
  }

  function PullKeys<T>(pull: seq<Msg<T>>): (r: seq<nat>)
    ensures |r| == |pull|
  {
    seq(|pull|, i requires 0 <= i < |pull| => pull[i].tensor.key)
  }

  // The answers to the pulls of a batch: those whose key has a tensor.
  function PullAnswers<T>(pull: seq<Msg<T>>, tensors: seq<KeyTensor<T>>): seq<Answer<T>> {
    if pull == [] then []
    else
      var n := |pull| - 1;
      var i := FirstIndex(TensorKeys(tensors), pull[n].tensor.key);
      PullAnswers(pull[..n], tensors) + if i < |tensors| then [Answer(pull[n], Some(tensors[i]))] else []
  }

  function Answers<T>(a: Meta<T>, tensors: seq<KeyTensor<T>>): seq<Answer<T>>
    requires a.single && |a.pull| == 1 ==> tensors != []
  {
    if a.single then
      if |a.pull| == 1 then [Answer(a.pull[0], Some(tensors[0]))]
      else if |a.push| == 1 then [Answer(a.push[0], None)]
      else []
    else PullAnswers(a.pull, tensors)
  }

  method Response<T(==)>(a: Meta<T>, tensors: seq<KeyTensor<T>>) returns (out: seq<Answer<T>>)
    requires a.single && |a.pull| == 1 ==> tensors != []
    ensures out == Answers(a, tensors)
  {
    out := [];
    if a.single {
      if |a.pull| == 1 {
        out := [Answer(a.pull[0], Some(tensors[0]))];
      } else if |a.push| == 1 {
        out := [Answer(a.push[0], None)];
      }
      return;
    }
    for i := 0 to |a.pull|
      invariant out == PullAnswers(a.pull[..i], tensors)
    {
      assert a.pull[..i + 1][..i] == a.pull[..i];
      var j := 0;
      while j < |tensors|
        invariant j <= |tensors| && forall k :: 0 <= k < j ==> TensorKeys(tensors)[k] != a.pull[i].tensor.key
      {
        if tensors[j].key == a.pull[i].tensor.key { break; }
        j := j + 1;
      }
      assert j < |tensors| ==> TensorKeys(tensors)[j] == a.pull[i].tensor.key;
      assert j == FirstIndex(TensorKeys(tensors), a.pull[i].tensor.key);
      if j < |tensors| { out := out + [Answer(a.pull[i], Some(tensors[j]))]; }
    }
    assert a.pull[..|a.pull|] == a.pull;
  }

  // ---------------------------------------------------------------- one batch

  // One value per pull, under the pull's key, as respond builds them.
  function Paired<T>(pull: seq<Msg<T>>, vals: seq<T>): (r: seq<KeyTensor<T>>)
    requires |vals| == |pull|
    ensures |r| == |pull|
  {
    seq(|pull|, i requires 0 <= i < |pull| => KeyTensor(pull[i].tensor.key, vals[i]))
  }

  // The first pull with the key of the k-th.
  function FirstPull<T>(pull: seq<Msg<T>>, k: nat): (i: nat)
    requires k < |pull|
    ensures i <= k && pull[i].tensor.key == pull[k].tensor.key
    ensures forall j :: 0 <= j < i ==> pull[j].tensor.key != pull[k].tensor.key
    ensures i == k <==> forall j :: 0 <= j < k ==> pull[j].tensor.key != pull[k].tensor.key
  {
    var keys := PullKeys(pull);
    var i := FirstIndex(keys, keys[k]);
    assert i < k ==> pull[i].tensor.key == pull[k].tensor.key;
    assert forall j :: 0 <= j < i ==> keys[j] == pull[j].tensor.key;
    i
  }

  // What the k-th pull is answered.
  function PullAnswer<T>(pull: seq<Msg<T>>, vals: seq<T>, k: nat): Answer<T>
    requires |vals| == |pull| && k < |pull|
  {
    Answer(pull[k], Some(KeyTensor(pull[k].tensor.key, vals[FirstPull(pull, k)])))
  }

  lemma PullAnswersNext<T>(pull: seq<Msg<T>>, vals: seq<T>, n: nat)
    requires |vals| == |pull| && n < |pull|
    ensures PullAnswers(pull[..n + 1], Paired(pull, vals)) ==
      PullAnswers(pull[..n], Paired(pull, vals)) + [PullAnswer(pull, vals, n)]
  {
    assert pull[..n + 1][..n] == pull[..n];
    assert TensorKeys(Paired(pull, vals)) == PullKeys(pull);
  }

  lemma {:induction false} PullsAnswered<T>(pull: seq<Msg<T>>, vals: seq<T>, n: nat)
    requires |vals| == |pull| && n <= |pull|
    ensures |PullAnswers(pull[..n], Paired(pull, vals))| == n
    ensures forall k :: 0 <= k < n ==> PullAnswers(pull[..n], Paired(pull, vals))[k] == PullAnswer(pull, vals, k)
  {
    if n > 0 {
      var m := n - 1;
      PullsAnswered(pull, vals, m);
      PullAnswersNext(pull, vals, m);
      var before, after := PullAnswers(pull[..m], Paired(pull, vals)), PullAnswers(pull[..n], Paired(pull, vals));
      forall k | 0 <= k < n ensures after[k] == PullAnswer(pull, vals, k) {
        assert k < m ==> after[k] == before[k];
      }
    }
  }

  // Responding to a batch answers each of its pulls once, in order, with its own
  // key and the value given for the first pull with that key.  That is its own
  // value, whatever the values are, exactly when no earlier pull has its key.
  lemma BatchAnswered<T>(a: Meta<T>, vals: seq<T>)
    requires !a.single && |vals| == |a.pull|
    ensures var out := Answers(a, Paired(a.pull, vals));
      |out| == |a.pull| && forall k :: 0 <= k < |out| ==> out[k] == PullAnswer(a.pull, vals, k)
  {
    PullsAnswered(a.pull, vals, |a.pull|);
    assert a.pull[..|a.pull|] == a.pull;
  }

  // Two pulls with one key get the first one's value.
  lemma OwnValue<T>(pull: seq<Msg<T>>, k: nat, x: T, y: T)
    requires k < |pull| && x != y
    ensures (forall vals: seq<T> :: |vals| == |pull| ==> PullAnswer(pull, vals, k).tensor.value.val == vals[k]) <==>
      forall j :: 0 <= j < k ==> pull[j].tensor.key != pull[k].tensor.key
  {
    var i := FirstPull(pull, k);
    var vals := seq(|pull|, j => if j == k then x else y);
    assert i != k ==> PullAnswer(pull, vals, k).tensor.value.val != vals[k];
  }

  function Questions<T>(out: seq<Answer<T>>): (r: seq<Msg<T>>)
    ensures |r| == |out|
  {
    seq(|out|, i requires 0 <= i < |out| => out[i].msg)
  }

  // The messages that Response answers: all of a single request, only the pulls
  // of a batch.
  function Owed<T>(a: Meta<T>): seq<Msg<T>> {
    if a.single then a.push + a.pull else a.pull
  }

  lemma ResponseAnswersOwed<T>(ms: seq<Msg<T>>, vals: seq<T>)
    requires Batch(ms) && |vals| == |Assemble(ms).pull|
    ensures var a := Assemble(ms);
      (a.single && |a.pull| == 1 ==> vals != []) && Questions(Answers(a, Paired(a.pull, vals))) == Owed(a)
  {
    var a := Assemble(ms);
    if a.single {
      SingleIs(ms);
    } else {
      BatchAnswered(a, vals);
    }
  }

  // A single request is one push or one pull.
  lemma SingleIs<T>(ms: seq<Msg<T>>)
    requires Batch(ms) && Assemble(ms).single
    ensures var a := Assemble(ms);
      if ms[0].push then a.push == [ms[0]] && a.pull == [] else a.push == [] && a.pull == [ms[0]]
  {
    assert Assemble(ms) == NewMeta(ms[0].sender, true).Add(ms[0]);
  }

  // An answer to a pull has the pull's key and the value given for the first pull
  // with that key; an answer to a push has nothing.
  ghost predicate RightAnswer<T>(ans: Answer<T>, pull: seq<Msg<T>>, vals: seq<T>)
    requires |vals| == |pull|
  {
    if ans.msg.push then ans.tensor == None
    else
      exists i, k :: 0 <= i <= k < |pull|
        && ans.msg == pull[k] && ans.tensor == Some(KeyTensor(ans.msg.tensor.key, vals[i]))
        && pull[i].tensor.key == ans.msg.tensor.key
        && forall j :: 0 <= j < i ==> pull[j].tensor.key != ans.msg.tensor.key
  }

  // Whatever the batch is, single or not, every answer is right.
  lemma ResponseIsRight<T>(ms: seq<Msg<T>>, vals: seq<T>)
    requires Batch(ms) && |vals| == |Assemble(ms).pull|
    ensures var a := Assemble(ms);
      (a.single && |a.pull| == 1 ==> vals != []) &&
      var out := Answers(a, Paired(a.pull, vals));
      forall k :: 0 <= k < |out| ==> RightAnswer(out[k], a.pull, vals)
  {
    var a := Assemble(ms);
    if a.single {
      SingleIs(ms);
      var out := Answers(a, Paired(a.pull, vals));
      assert !ms[0].push ==> out[0] == PullAnswer(a.pull, vals, 0);
    } else {
      BatchAnswered(a, vals);
      PullsOnly(ms);
      var out := Answers(a, Paired(a.pull, vals));
      forall k | 0 <= k < |out| ensures RightAnswer(out[k], a.pull, vals) {
        assert out[k] == PullAnswer(a.pull, vals, k) && !out[k].msg.push;
      }
    }
  }

  lemma {:induction false} PullsOnly<T>(ms: seq<Msg<T>>)
    requires ms != []
    ensures forall k :: 0 <= k < |Assemble(ms).pull| ==> !Assemble(ms).pull[k].push
  {
    if |ms| > 1 { PullsOnly(ms[..|ms| - 1]); }
  }

  // A lone pull gets the value given for it.
  lemma LonePull<T>(m: Msg<T>, val: T)
    requires m.cmd == Single && !m.push
    ensures Batch([m]) && Assemble([m]).single && Assemble([m]).pull == [m]
    ensures Answers(Assemble([m]), Paired([m], [val])) == [Answer(m, Some(KeyTensor(m.tensor.key, val)))]
  {
  }

  // ---------------------------------------------------------------- all batches

  // The application responds to batches it was handed, to each at most once.
  ghost predicate Replies(replies: seq<nat>, handled: nat) {
    Distinct(replies) && forall i :: 0 <= i < |replies| ==> replies[i] < handled
  }

  // The messages answered by responding to these batches.
  ghost function Replied<T>(handled: seq<Meta<T>>, replies: seq<nat>): seq<Msg<T>>
    requires forall i :: 0 <= i < |replies| ==> replies[i] < |handled|
  {
    if replies == [] then []
    else
      var n := |replies| - 1;
      Replied(handled, replies[..n]) + Owed(handled[replies[n]])
  }

  // Everything a server has answered.
  ghost function Emitted<T>(s: State<T>, replies: seq<nat>): seq<Msg<T>>
    requires Replies(replies, |s.handled|)
  {
    s.acked + Replied(s.handled, replies)
  }

  lemma CountNext<T>(ms: seq<Msg<T>>, n: nat, m: Msg<T>)
    requires |ms| == n + 1
    ensures multiset(ms)[m] == multiset(ms[..n])[m] + if ms[n] == m then 1 else 0
  {
    assert ms == ms[..n] + [ms[n]];
  }

  lemma AddCounts<T>(a: Meta<T>, x: Msg<T>, m: Msg<T>)
    ensures multiset(a.Add(x).push)[m] == multiset(a.push)[m] + if x == m && m.push then 1 else 0
    ensures multiset(a.Add(x).pull)[m] == multiset(a.pull)[m] + if x == m && !m.push then 1 else 0
  {
  }

  // A batch's messages are its pushes and its pulls.
  lemma {:induction false} AssembleCounts<T>(ms: seq<Msg<T>>, m: Msg<T>)
    requires ms != []
    ensures multiset(Assemble(ms).push)[m] == if m.push then multiset(ms)[m] else 0
    ensures multiset(Assemble(ms).pull)[m] == if m.push then 0 else multiset(ms)[m]
  {
    var n := |ms| - 1;
    CountNext(ms, n, m);
    if n == 0 {
      AddCounts(NewMeta(ms[0].sender, ms[0].cmd == Single), ms[0], m);
    } else {
      AssembleCounts(ms[..n], m);
      AddCounts(Assemble(ms[..n]), ms[n], m);
    }
  }

  lemma {:induction false} CountIsOne<T>(ms: seq<Msg<T>>, j: nat)
    requires j < |ms| && forall i, k :: 0 <= i < k < |ms| ==> ms[i] != ms[k]
    ensures multiset(ms)[ms[j]] == 1
  {
    assert ms == ms[..j] + [ms[j]] + ms[j + 1..];
    assert ms[j] !in ms[..j] && ms[j] !in ms[j + 1..];
  }

  // Does the response, rather than KVHandler, answer this message?
  predicate Later<T>(m: Msg<T>) {
    !AckedAtOnce(m)
  }

  // Responding to batch c answers message j of batch b once when b is c and the
  // message is not acked at once; otherwise not at all.
  lemma OwedCounts<T>(bs: seq<seq<Msg<T>>>, c: nat, b: nat, j: nat)
    requires Batches(bs) && c < |bs| && b < |bs| && j < |bs[b]|
    ensures bs[c] != []
    ensures multiset(Owed(Assemble(bs[c])))[bs[b][j]] == if b == c && Later(bs[b][j]) then 1 else 0
  {
    assert Batch(bs[c]) && Batch(bs[b]);
    var ms, m := bs[c], bs[b][j];
    AssembleCounts(ms, m);
    if b == c {
      CountIsOne(ms, j);
    } else {
      forall k | 0 <= k < |ms| ensures ms[k] != m {}
      assert m !in ms;
    }
  }

  // The batches handed over are those that `order` lists.
  ghost predicate HandedOver<T>(handled: seq<Meta<T>>, bs: seq<seq<Msg<T>>>, order: seq<nat>) {
    && |handled| == |order| && Distinct(order)
    && forall k :: 0 <= k < |order| ==> order[k] < |bs| && bs[order[k]] != [] && handled[k] == Assemble(bs[order[k]])
  }

  // Batch b has been responded to.
  ghost predicate RepliedTo(order: seq<nat>, replies: seq<nat>, b: nat) {
    exists i :: 0 <= i < |replies| && replies[i] < |order| && order[replies[i]] == b
  }

  lemma {:induction false} RepliedCounts<T>(
      handled: seq<Meta<T>>, bs: seq<seq<Msg<T>>>, order: seq<nat>, replies: seq<nat>, b: nat, j: nat)
    requires Batches(bs) && HandedOver(handled, bs, order) && Replies(replies, |handled|) && b < |bs| && j < |bs[b]|
    ensures multiset(Replied(handled, replies))[bs[b][j]] ==
      if Later(bs[b][j]) && RepliedTo(order, replies, b) then 1 else 0
  {
    if replies != [] {
      var n := |replies| - 1;
      var rest := replies[..n];
      RepliedCounts(handled, bs, order, rest, b, j);
      OwedCounts(bs, order[replies[n]], b, j);
      RepliedNext(order, replies, b);
    }
  }

  lemma RepliedNext(order: seq<nat>, replies: seq<nat>, b: nat)
    requires Distinct(order) && Replies(replies, |order|) && replies != []
    ensures var n := |replies| - 1;
      && (RepliedTo(order, replies, b) <==> RepliedTo(order, replies[..n], b) || order[replies[n]] == b)
      && !(RepliedTo(order, replies[..n], b) && order[replies[n]] == b)
  {
    var n := |replies| - 1;
    if RepliedTo(order, replies[..n], b) {
      var i :| 0 <= i < n && replies[..n][i] < |order| && order[replies[..n][i]] == b;
      assert replies[i] == replies[..n][i];
    }
    if RepliedTo(order, replies, b) && order[replies[n]] != b {
      var i :| 0 <= i < |replies| && replies[i] < |order| && order[replies[i]] == b;
      assert replies[..n][i] == replies[i];
    }
  }

  lemma {:induction false} RepliedCame<T>(
      handled: seq<Meta<T>>, bs: seq<seq<Msg<T>>>, order: seq<nat>, replies: seq<nat>, p: seq<nat>, i: nat)
    requires Batches(bs) && HandedOver(handled, bs, order) && Replies(replies, |handled|) && |p| == |bs|
    requires forall k :: 0 <= k < |order| ==> p[order[k]] == |bs[order[k]]|
    requires i < |Replied(handled, replies)|
    ensures Came(bs, p, Replied(handled, replies)[i])
  {
    var n := |replies| - 1;
    var rest := replies[..n];
    var before := Replied(handled, rest);
    if i < |before| {
      RepliedCame(handled, bs, order, rest, p, i);
    } else {
      var c := order[replies[n]];
      var m := Owed(Assemble(bs[c]))[i - |before|];
      AssembleCounts(bs[c], m);
      assert m in multiset(Owed(Assemble(bs[c])));
      assert m in bs[c];
      var j :| 0 <= j < |bs[c]| && bs[c][j] == m;
    }
  }

  // How often message j of batch b has been answered: a push of a batch of several
  // messages once it has come, anything else with the response, and never twice.
  ghost predicate AnswerAt<T>(
      e: seq<Msg<T>>, bs: seq<seq<Msg<T>>>, p: seq<nat>, order: seq<nat>, replies: seq<nat>, b: nat, j: nat) {
    b < |bs| == |p| && j < |bs[b]| ==>
      var done := if AckedAtOnce(bs[b][j]) then j < p[b] else RepliedTo(order, replies, b);
      multiset(e)[bs[b][j]] == if done then 1 else 0
  }

  ghost predicate EmittedOk<T>(e: seq<Msg<T>>, bs: seq<seq<Msg<T>>>, p: seq<nat>, order: seq<nat>, replies: seq<nat>) {
    && (forall b: nat, j: nat {:trigger AnswerAt(e, bs, p, order, replies, b, j)} ::
      AnswerAt(e, bs, p, order, replies, b, j))
    && (forall i :: 0 <= i < |e| ==> Came(bs, p, e[i]))
  }

  lemma EmittedCounts<T>(s: State<T>, bs: seq<seq<Msg<T>>>, p: seq<nat>, order: seq<nat>, replies: seq<nat>)
    requires Batches(bs) && |p| == |bs| && HandedOver(s.handled, bs, order) && Replies(replies, |s.handled|)
    requires AcksOk(s.acked, bs, p) && forall k :: 0 <= k < |order| ==> p[order[k]] == |bs[order[k]]|
    ensures EmittedOk(Emitted(s, replies), bs, p, order, replies)
  {
    var e := Emitted(s, replies);
    forall b: nat, j: nat ensures AnswerAt(e, bs, p, order, replies, b, j) {
      assert AckAt(s.acked, bs, p, b, j);
      if b < |bs| && j < |bs[b]| { RepliedCounts(s.handled, bs, order, replies, b, j); }
    }
    forall i: nat | i < |e| ensures Came(bs, p, e[i]) {
      if i >= |s.acked| { RepliedCame(s.handled, bs, order, replies, p, i - |s.acked|); }
    }
  }

  // No two answers are for one timestamp of one worker.
  ghost predicate OncePerTimestamp<T>(e: seq<Msg<T>>) {
    forall i, k :: 0 <= i < k < |e| ==> e[i].sender != e[k].sender || e[i].ts != e[k].ts
  }

  lemma EmittedOnce<T>(e: seq<Msg<T>>, bs: seq<seq<Msg<T>>>, p: seq<nat>, order: seq<nat>, replies: seq<nat>)
    requires Batches(bs) && |p| == |bs| && EmittedOk(e, bs, p, order, replies)
    ensures OncePerTimestamp(e)
  {
    forall i, k | 0 <= i < k < |e| ensures e[i].sender != e[k].sender || e[i].ts != e[k].ts {
      assert Came(bs, p, e[i]) && Came(bs, p, e[k]);
      var b: nat, j: nat :| b < |bs| && b < |p| && j < |bs[b]| && j < p[b] && bs[b][j] == e[i];
      var c: nat, l: nat :| c < |bs| && c < |p| && l < |bs[c]| && l < p[c] && bs[c][l] == e[k];
      assert AnswerAt(e, bs, p, order, replies, b, j);
      if e[i].sender == e[k].sender && e[i].ts == e[k].ts {
        OneMessage(bs, b, j, c, l);
        TwiceIn(e, i, k);
      }
    }
  }

  // Under any schedule and any order of responses: every answer is to a message
  // that has come, no timestamp of a worker is answered twice, and each message
  // of each batch has been answered exactly when its turn has come.
  lemma AnsweredOnce<T>(bs: seq<seq<Msg<T>>>, sched: seq<nat>, replies: seq<nat>) returns (order: seq<nat>)
    requires Batches(bs) && Schedule(bs, Zeros(|bs|), sched) && Run(Fresh(), bs, Zeros(|bs|), sched).Some?
    requires Replies(replies, |Run(Fresh(), bs, Zeros(|bs|), sched).value.handled|)
    ensures var s, p := Run(Fresh(), bs, Zeros(|bs|), sched).value, Progress(bs, Zeros(|bs|), sched);
      && HandedOver(s.handled, bs, order)
      && EmittedOk(Emitted(s, replies), bs, p, order, replies)
      && OncePerTimestamp(Emitted(s, replies))
  {
    order := HandledExactlyOnce(bs, sched);
    var s, p := Run(Fresh(), bs, Zeros(|bs|), sched).value, Progress(bs, Zeros(|bs|), sched);
    assert forall k :: 0 <= k < |order| ==> order[k] in order;
    EmittedCounts(s, bs, p, order, replies);
    EmittedOnce(Emitted(s, replies), bs, p, order, replies);
  }

  // When everything has come and been responded to, every message has been
  // answered exactly once.
  lemma AllAnsweredOnce<T>(bs: seq<seq<Msg<T>>>, sched: seq<nat>, replies: seq<nat>, b: nat, j: nat)
    requires Batches(bs) && Schedule(bs, Zeros(|bs|), sched) && Run(Fresh(), bs, Zeros(|bs|), sched).Some?
    requires Replies(replies, |Run(Fresh(), bs, Zeros(|bs|), sched).value.handled|)
    requires |replies| == |Run(Fresh(), bs, Zeros(|bs|), sched).value.handled|
    requires forall c :: 0 <= c < |bs| ==> Progress(bs, Zeros(|bs|), sched)[c] == |bs[c]|
    requires b < |bs| && j < |bs[b]|
    ensures multiset(Emitted(Run(Fresh(), bs, Zeros(|bs|), sched).value, replies))[bs[b][j]] == 1
  {
    var order := HandledExactlyOnce(bs, sched);
    var s, p := Run(Fresh(), bs, Zeros(|bs|), sched).value, Progress(bs, Zeros(|bs|), sched);
    assert forall k :: 0 <= k < |order| ==> order[k] in order;
    EmittedCounts(s, bs, p, order, replies);
    assert AnswerAt(Emitted(s, replies), bs, p, order, replies, b, j);
    var k :| 0 <= k < |order| && order[k] == b;
    AllListed(replies, |order|, k);
    var i :| 0 <= i < |replies| && replies[i] == k;
    assert order[replies[i]] == b;
  }

  // As many different numbers below n as n are all of them.
  lemma AllListed(replies: seq<nat>, n: nat, k: nat)
    requires Replies(replies, n) && |replies| == n && k < n
    ensures k in replies
  {
    DistinctElements(replies);
    forall x | x in Elements(replies) ensures x in Below(n) {}
    SubsetSize(Elements(replies), Below(n));
    assert Elements(replies) == Below(n) && k in Below(n);
    assert k in Elements(replies);
  }
}
