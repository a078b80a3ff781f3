/** The scheduler's code behind the request steps of the barriers (comm/src/van.cc). */
module BarrierScheduler {
  import opened Prelude
  import opened Barrier

  const K_SCHEDULER: nat := 1

  // node_group & kScheduler
  predicate HasScheduler(group: nat) {
    group % 2 == 1
  }

  // How many requests a group barrier waits for: one per instance group, and
  // the scheduler, which has one instance only.  Integer division truncates.
  function ExpectedRequests(group: nat, instances: nat, groupSize: nat): int
    requires groupSize > 0
  {
    if group == K_SCHEDULER then 1
    else if HasScheduler(group) then (if instances == 0 && groupSize > 1 then 0 else (instances - 1) / groupSize) + 1
    else instances / groupSize
  }

  // That is one request per instance group, and one from the scheduler.
  lemma ExpectedPerGroup(group: nat, groups: nat, groupSize: nat)
    requires groupSize > 0 && group != K_SCHEDULER
    ensures HasScheduler(group) ==> ExpectedRequests(group, groups * groupSize + 1, groupSize) == groups + 1
    ensures !HasScheduler(group) ==> ExpectedRequests(group, groups * groupSize, groupSize) == groups
  {
    DivModUnique(groups * groupSize, groupSize, groups, 0);
  }

  // So a group barrier in which every instance takes part, in groups of more than
  // one, lets somebody leave early.
  lemma PerInstanceIsEarly(group: nat, groups: nat, groupSize: nat, members: set<nat>)
    requires groupSize > 1 && groups > 0 && !HasScheduler(group) && |members| == groups * groupSize
    ensures !NeverEarly(Channel(Group, members, ExpectedRequests(group, |members|, groupSize)))
  {
    ExpectedPerGroup(group, groups, groupSize);
    assert groups * groupSize == groups + groups * (groupSize - 1);
    TimesAtLeast(groupSize - 1, groups);
    var c := Channel(Group, members, groups);
    assert members != {};
    SomebodyCanLeave(c);
    ExpectedIsMembers(c);
  }

  // Which barrier of the protocol a node group's instance and group barriers are.
  datatype Names = Names(instance: map<nat, nat>, group: map<nat, nat>)

  // The barriers have the members and the expected numbers that the code uses, and
  // no two names are for one barrier.
  ghost predicate NamesOk(names: Names, chs: seq<Channel>, nodeIds: map<nat, seq<nat>>, groupSize: nat) {
    && groupSize > 0
    && (forall g :: g in names.instance ==>
          && g in nodeIds && names.instance[g] < |chs|
          && Distinct(nodeIds[g])
          && chs[names.instance[g]] == Channel(Instance, Elements(nodeIds[g]), |nodeIds[g]|))
    && (forall g :: g in names.group ==>
          && g in nodeIds && names.group[g] < |chs| && chs[names.group[g]].kind == Group
          && chs[names.group[g]].expected == ExpectedRequests(g, |nodeIds[g]|, groupSize))
    && (forall g, h :: g in names.instance && h in names.instance && g != h ==> names.instance[g] != names.instance[h])
    && (forall g, h :: g in names.group && h in names.group && g != h ==> names.group[g] != names.group[h])
    && (forall g, h :: g in names.instance && h in names.group ==> names.instance[g] != names.group[h])
  }

  // The requests of a group barrier so far.
  function Requests(lists: map<nat, seq<nat>>, group: nat): seq<nat> {
    if group in lists then lists[group] else []
  }

  // The lists agree with the protocol state, and what was sent is on the way or
  // delivered.
  ghost predicate Agrees(
      names: Names, arrived: map<nat, seq<nat>>, lists: map<nat, seq<nat>>, sent: seq<nat>, s: State,
      delivered: multiset<nat>) {
    && (forall g :: g in names.instance ==>
          g < 8 && names.instance[g] in s.arrived && s.arrived[names.instance[g]] == Requests(arrived, g))
    && (forall g :: g in names.group ==> names.group[g] in s.arrived && s.arrived[names.group[g]] == Requests(lists, g))
    && multiset(sent) == s.answers + delivered
  }

  // What a request does to the list of a barrier and to what has been sent.
  ghost predicate Serves(
      lists: map<nat, seq<nat>>, sent: seq<nat>, group: nat, sender: nat, expected: int, answered: seq<nat>,
      lists': map<nat, seq<nat>>, sent': seq<nat>) {
    var here := Requests(lists, group) + [sender];
    if |here| == expected then lists' == lists[group := []] && sent' == sent + answered
    else lists' == lists[group := here] && sent' == sent
  }

  lemma InstanceStep(
      names: Names, chs: seq<Channel>, arrived: map<nat, seq<nat>>, lists: map<nat, seq<nat>>, sent: seq<nat>,
      s: State, delivered: multiset<nat>, group: nat, sender: nat, ids: seq<nat>, arrived': map<nat, seq<nat>>,
      sent': seq<nat>)
    requires Agrees(names, arrived, lists, sent, s, delivered) && group in names.instance
    requires (forall g :: g in names.instance && g != group ==> names.instance[g] != names.instance[group])
    requires (forall h :: h in names.group ==> names.instance[group] != names.group[h])
    requires Enabled(chs, s, Request(names.instance[group], sender))
    requires chs[names.instance[group]].kind == Instance && chs[names.instance[group]].expected == |ids|
    requires multiset(ids) == multiset(chs[names.instance[group]].members)
    requires Serves(arrived, sent, group, sender, |ids|, ids, arrived', sent')
    ensures Agrees(names, arrived', lists, sent', Next(chs, s, Request(names.instance[group], sender)), delivered)
  {
    var s' := Next(chs, s, Request(names.instance[group], sender));
    assert multiset(sent + ids) == multiset(sent) + multiset(ids);
  }

  lemma GroupStep(
      names: Names, chs: seq<Channel>, arrived: map<nat, seq<nat>>, lists: map<nat, seq<nat>>, sent: seq<nat>,
      s: State, delivered: multiset<nat>, group: nat, sender: nat, lists': map<nat, seq<nat>>, sent': seq<nat>)
    requires Agrees(names, arrived, lists, sent, s, delivered) && group in names.group
    requires (forall g :: g in names.group && g != group ==> names.group[g] != names.group[group])
    requires (forall h :: h in names.instance ==> names.instance[h] != names.group[group])
    requires Enabled(chs, s, Request(names.group[group], sender)) && chs[names.group[group]].kind == Group
    requires Serves(lists, sent, group, sender, chs[names.group[group]].expected, Requests(lists, group) + [sender],
      lists', sent')
    ensures Agrees(names, arrived, lists', sent', Next(chs, s, Request(names.group[group], sender)), delivered)
  {
    var s' := Next(chs, s, Request(names.group[group], sender));
    var here := Requests(lists, group) + [sender];
    assert multiset(sent + here) == multiset(sent) + multiset(here);
  }

  class Scheduler {
    const nodeIds: map<nat, seq<nat>>
    const groupSize: nat
    var barrierCount: seq<nat>
    var groupRequests: map<nat, seq<nat>>
    var timestamp: nat
    var sent: seq<nat>
    // who is behind the counters of the instance barriers
    ghost var arrived: map<nat, seq<nat>>

    ghost predicate Valid()
      reads this
    {
      && (barrierCount == [] || |barrierCount| == 8) && groupSize > 0
      && forall g :: 0 <= g < 8 ==> g in arrived && |arrived[g]| == if barrierCount == [] then 0 else barrierCount[g]
    }

    constructor (nodeIds: map<nat, seq<nat>>, groupSize: nat)
      requires groupSize > 0
      ensures Valid() && sent == [] && groupRequests == map[] && forall g :: 0 <= g < 8 ==> arrived[g] == []
      ensures this.nodeIds == nodeIds && this.groupSize == groupSize
    {
      this.nodeIds, this.groupSize := nodeIds, groupSize;
      barrierCount, groupRequests, timestamp, sent := [], map[], 0, [];
      arrived := map[0 := [], 1 := [], 2 := [], 3 := [], 4 := [], 5 := [], 6 := [], 7 := []];
    }

    // The scheduler is in the protocol state s.
    ghost predicate Matches(names: Names, s: State, delivered: multiset<nat>)
      reads this
    {
      Valid() && Agrees(names, arrived, groupRequests, sent, s, delivered)
    }

    // One answer per receiver, each with its own timestamp.
    method SendAnswers(to: seq<nat>)
      modifies this`timestamp, this`sent
      ensures sent == old(sent) + to && timestamp == old(timestamp) + |to|
    {
      for i := 0 to |to|
        invariant sent == old(sent) + to[..i] && timestamp == old(timestamp) + i
      {
        timestamp := timestamp + 1;
        sent := sent + [to[i]];
      }
    }

    // The counter decides as the list of senders would, and a full round
    // answers every member of the group.
    method ProcessInstanceBarrierCommand(group: nat, ghost sender: nat)
      requires Valid() && group < 8 && group in nodeIds
      modifies this
      ensures Valid() && groupRequests == old(groupRequests)
      ensures var here := old(arrived)[group] + [sender];
        if |here| == |nodeIds[group]|
        then arrived == old(arrived)[group := []] && sent == old(sent) + nodeIds[group]
        else arrived == old(arrived)[group := here] && sent == old(sent)
    {
      if barrierCount == [] {
        barrierCount := seq(8, _ => 0);
      }
      barrierCount := barrierCount[group := barrierCount[group] + 1];
      arrived := arrived[group := arrived[group] + [sender]];
      if barrierCount[group] == |nodeIds[group]| {
        barrierCount := barrierCount[group := 0];
        arrived := arrived[group := []];
        SendAnswers(nodeIds[group]);
      }
    }

    // A group barrier answers exactly those that asked.
    method ProcessBarrierCommand(group: nat, sender: nat)
      requires Valid() && group in nodeIds
      modifies this
      ensures Valid() && arrived == old(arrived)
      ensures var here := (if group in old(groupRequests) then old(groupRequests)[group] else []) + [sender];
        if |here| == ExpectedRequests(group, |nodeIds[group]|, groupSize)
        then groupRequests == old(groupRequests)[group := []] && sent == old(sent) + here
        else groupRequests == old(groupRequests)[group := here] && sent == old(sent)
    {
      var requests := (if group in groupRequests then groupRequests[group] else []) + [sender];
      groupRequests := groupRequests[group := requests];
      var expected := ExpectedRequests(group, |nodeIds[group]|, groupSize);
      if |requests| == expected {
        SendAnswers(requests);
        groupRequests := groupRequests[group := []];
      }
    }
  }

  // An instance barrier command is a Request step of the protocol.
  method ServeInstance(
      sch: Scheduler, group: nat, ghost sender: nat, ghost names: Names, ghost chs: seq<Channel>,
      ghost s: State, ghost delivered: multiset<nat>)
    requires NamesOk(names, chs, sch.nodeIds, sch.groupSize) && sch.Matches(names, s, delivered)
    requires group in names.instance && Enabled(chs, s, Request(names.instance[group], sender))
    modifies sch
    ensures sch.Matches(names, Next(chs, s, Request(names.instance[group], sender)), delivered)
  {
    ghost var ids, arrived, lists, sent := sch.nodeIds[group], sch.arrived, sch.groupRequests, sch.sent;
    DistinctElements(ids);
    sch.ProcessInstanceBarrierCommand(group, sender);
    InstanceStep(names, chs, arrived, lists, sent, s, delivered, group, sender, ids, sch.arrived, sch.sent);
  }

  // A group barrier command is one, too.
  method ServeGroup(
      sch: Scheduler, group: nat, sender: nat, ghost names: Names, ghost chs: seq<Channel>, ghost s: State,
      ghost delivered: multiset<nat>)
    requires NamesOk(names, chs, sch.nodeIds, sch.groupSize) && sch.Matches(names, s, delivered)
    requires group in names.group && Enabled(chs, s, Request(names.group[group], sender))
    modifies sch
    ensures sch.Matches(names, Next(chs, s, Request(names.group[group], sender)), delivered)
  {
    ghost var arrived, lists, sent := sch.arrived, sch.groupRequests, sch.sent;
    sch.ProcessBarrierCommand(group, sender);
    GroupStep(names, chs, arrived, lists, sent, s, delivered, group, sender, sch.groupRequests, sch.sent);
  }
}
