/** The in-memory broker, an object updated in place (eventbus/broker.py), proved against BrokerModel. */
module Broker {
  import opened Prelude
  import opened EventTypes
  import opened Ordering
  import opened BrokerModel
  import opened PollModel

  /** What a `defaultdict(int)` answers for a key. */
  function At(m: map<nat, nat>, p: nat): nat {
    if p in m then m[p] else 0
  }

  function Offsets(m: map<nat, nat>, n: nat): (r: seq<nat>)
    ensures |r| == n
  {
    seq(n, p requires 0 <= p < n => At(m, p))
  }

  /** The three dictionaries of a group's state. */
  datatype GroupState = GroupState(committed: map<nat, nat>, position: map<nat, nat>, assignment: Assignment) {
    /** The group as the model sees it on a topic of `n` partitions. */
    function View(n: nat): (g: Group)
      ensures g.Sized(n)
    {
      Group(Offsets(committed, n), Offsets(position, n), assignment)
    }
  }

  function NoState(): GroupState { GroupState(map[], map[], map[]) }

  lemma Raised(state: GroupState, committed: map<nat, nat>, offsets: map<nat, int>, n: nat)
    requires forall p: nat ::
      At(committed, p) == if p in offsets && offsets[p] > At(state.committed, p) then offsets[p] else At(state.committed, p)
    ensures Offsets(committed, n) == BrokerModel.Commit(state.View(n), offsets).committed
  {
  }

  lemma RolledBack(state: GroupState, position: map<nat, nat>, partitions: set<nat>, n: nat)
    requires forall p: nat :: At(position, p) == if p in partitions then At(state.committed, p) else At(state.position, p)
    ensures Offsets(position, n) == Rewound(state.View(n), partitions)
  {
  }

  lemma TakePrefix<T>(before: seq<T>, tail: seq<T>, out: seq<T>, max: int)
    requires out <= before + tail && |out| >= max && (|out| == max || (max <= 0 && out == []))
    ensures out == Take(before + tail, max)
  {
  }

  lemma TakeAll<T>(s: seq<T>, max: int, bounded: bool)
    requires bounded ==> |s| < max
    requires !bounded ==> s == []
    ensures Take(s, max) == s
  {
  }

  lemma OwnedInRange(a: Assignment, n: nat, id: string)
    requires a == Rebalanced(a.Keys, n)
    ensures forall p :: p in OwnedBy(a, id) ==> p < n
  {
  }

  lemma NoneUnread(logs: TopicLogs, topic: string, from: seq<nat>)
    ensures Unread(logs, topic, from, []) == []
  {
  }

  lemma UnreadStep(logs: TopicLogs, topic: string, from: seq<nat>, owned: seq<nat>, i: nat)
    requires (forall j :: 0 <= j < |owned| ==> owned[j] < |from|) && 0 < i <= |owned|
    ensures Unread(logs, topic, from, owned[..i]) ==
      Unread(logs, topic, from, owned[..i - 1]) + Tail(logs, topic, owned[i - 1], from[owned[i - 1]])
  {
    assert owned[..i][..i - 1] == owned[..i - 1];
  }

  lemma TakeOfLonger<T>(a: seq<T>, b: seq<T>, max: int)
    requires |Take(a, max)| >= max
    ensures Take(a + b, max) == Take(a, max)
  {
  }

  /** A full batch drawn from the first partitions is the batch drawn from all of them. */
  lemma {:induction false} StopHere(logs: TopicLogs, topic: string, from: seq<nat>, owned: seq<nat>, i: nat, out: seq<ConsumedRecord>, max: int)
    requires (forall j :: 0 <= j < |owned| ==> owned[j] < |from|) && i <= |owned|
    requires out == Take(Unread(logs, topic, from, owned[..i]), max)
    requires |out| >= max
    ensures out == Take(Unread(logs, topic, from, owned), max)
    decreases |owned| - i
  {
    hide Unread, Tail, Take;
    if i == |owned| {
      assert owned[..i] == owned;
    } else {
      UnreadStep(logs, topic, from, owned, i + 1);
      TakeOfLonger(Unread(logs, topic, from, owned[..i]), Tail(logs, topic, owned[i], from[owned[i]]), max);
      StopHere(logs, topic, from, owned, i + 1, out, max);
    }
  }

  lemma OwnerByPosition(members: set<string>, p: nat)
    requires members != {}
    ensures var ids := SortedIds(members); OwnerOf(members, p) == ids[p % |ids|]
  {
  }

  lemma NothingDealt(a: Assignment)
    requires forall id :: id in a ==> a[id] == {}
    ensures a == Rebalanced(a.Keys, 0)
  {
    hide OwnerOf;
    forall id | id in a ensures a[id] == Rebalanced(a.Keys, 0)[id] {}
  }

  lemma DealOne(members: set<string>, partition: nat)
    requires members != {}
    ensures var owner := OwnerOf(members, partition);
      var before := Rebalanced(members, partition);
      Rebalanced(members, partition + 1) == before[owner := before[owner] + {partition}]
  {
    hide OwnerOf;
    var owner := OwnerOf(members, partition);
    var before, after := Rebalanced(members, partition), Rebalanced(members, partition + 1);
    forall id | id in members ensures after[id] == if id == owner then before[id] + {partition} else before[id] {}
    assert after == before[owner := before[owner] + {partition}];
  }

  lemma NoSlices()
    ensures forall p: nat :: Slice([], p) == []
  {
  }

  lemma NothingYet(logs: TopicLogs, topic: string, from: seq<nat>, owned: seq<nat>, i: nat)
    requires NoDuplicates(owned) && (forall j :: 0 <= j < |owned| ==> owned[j] < |from|) && i < |owned|
    ensures Slice(Unread(logs, topic, from, owned[..i]), owned[i]) == []
  {
    UnreadSlice(logs, topic, from, owned[..i], owned[i]);
  }

  /** Appending records of one partition changes that partition's slice and no other. */
  lemma SliceGrows(before: seq<ConsumedRecord>, more: seq<ConsumedRecord>, p: nat)
    requires forall i :: 0 <= i < |more| ==> more[i].partition == p
    ensures forall q: nat :: Slice(before + more, q) == Slice(before, q) + if q == p then more else []
  {
    forall q: nat ensures Slice(before + more, q) == Slice(before, q) + if q == p then more else [] {
      SliceConcat(before, more, q);
      SliceUniform(more, p, q);
    }
  }

  lemma OffsetsAt(m: map<nat, nat>, n: nat)
    ensures forall p: nat :: p < n ==> Offsets(m, n)[p] == At(m, p)
  {
  }

  /** Reading on in one partition moves its position, by what was read, and no other. */
  lemma PositionMoves(start: map<nat, nat>, position: map<nat, nat>, before: seq<ConsumedRecord>, more: seq<ConsumedRecord>, p: nat)
    requires forall q: nat :: At(position, q) == At(start, q) + |Slice(before, q)|
    requires forall i :: 0 <= i < |more| ==> more[i].partition == p
    ensures var pos := At(position, p) + |more|;
      forall q: nat :: At(position[p := pos], q) == At(start, q) + |Slice(before + more, q)|
  {
    hide Slice;
    SliceGrows(before, more, p);
  }

  class InMemoryBroker {
    const hash: string -> nat
    const defaultPartitions: int
    var topics: map<string, TopicLogs>
    var groups: map<(string, string), GroupState>

    /** A topic has a partition, and whoever belongs to a group owns a dealt share of an existing topic. */
    ghost predicate Valid()
      reads this
    {
      && (forall t :: t in topics ==> |topics[t]| >= 1)
      && (forall k :: k in groups && groups[k].assignment != map[] ==>
           k.0 in topics && groups[k].assignment == Rebalanced(groups[k].assignment.Keys, |topics[k.0]|))
    }

    /** A group's state on a topic; one nobody has used yet is empty. */
    function StateOf(topic: string, group: string): GroupState
      reads this
    {
      if (topic, group) in groups then groups[(topic, group)] else NoState()
    }

    function View(topic: string, group: string): (g: Group)
      requires topic in topics
      reads this
      ensures g.Sized(|topics[topic]|)
    {
      StateOf(topic, group).View(|topics[topic]|)
    }

    constructor (hash: string -> nat, defaultPartitions: int)
      ensures Valid() && topics == map[] && groups == map[]
      ensures this.hash == hash && this.defaultPartitions == defaultPartitions
    {
      this.hash := hash;
      this.defaultPartitions := defaultPartitions;
      topics, groups := map[], map[];
    }

    // ---- topics ----

    method CreateTopic(topic: string, partitions: Option<int>) returns (r: Result<(), BrokerError>)
      requires Valid()
      modifies this`topics
      ensures Valid()
      ensures var n := if partitions.Some? then partitions.value else defaultPartitions;
        && r == (if topic !in old(topics) && n < 1 then Err(ValueError) else Ok(()))
        && topics == if topic in old(topics) || n < 1 then old(topics) else old(topics)[topic := seq(n, _ => [])]
    {
      if topic in topics { return Ok(()); }
      var n := if partitions.Some? then partitions.value else defaultPartitions;
      if n < 1 { return Err(ValueError); }
      topics := topics[topic := seq(n, _ => [])];
      return Ok(());
    }

    /** The topics after an operation that creates a missing topic with the default partition count. */
    function WithTopic(topic: string): map<string, TopicLogs>
      reads this
    {
      if topic in topics || defaultPartitions < 1 then topics
      else topics[topic := seq(defaultPartitions, _ => [])]
    }

    method EnsureTopic(topic: string) returns (r: Result<(), BrokerError>)
      requires Valid()
      modifies this`topics
      ensures Valid() && topics == old(WithTopic(topic))
      ensures r == if topic in topics then Ok(()) else Err(ValueError)
    {
      r := Ok(());
      if topic !in topics {
        r := CreateTopic(topic, None);
      }
    }

    // ---- produce ----

    /** Append a record to the partition of its key; answers its offset there. */
    method Produce(topic: string, record: EventRecord) returns (r: Result<nat, BrokerError>)
      requires Valid()
      modifies this`topics
      ensures Valid()
      ensures var ts := old(WithTopic(topic));
        if topic in ts then
          && topics == ts[topic := Append(ts[topic], hash, record)]
          && r == Ok(|ts[topic][PartitionFor(hash, record.key, |ts[topic]|)]|)
        else
          topics == ts && r == Err(ValueError)
    {
      var ensured := EnsureTopic(topic);
      if ensured.Err? { return Err(ensured.error); }
      var logs := topics[topic];
      var idx := PartitionFor(hash, record.key, |logs|);
      topics := topics[topic := logs[idx := logs[idx] + [record]]];
      return Ok(|logs[idx]|);
    }

    // ---- group membership ----

    /** Deal all partitions out again, round robin over the sorted members. */
    method Rebalance(topic: string, group: string)
      requires (topic, group) in groups
      requires groups[(topic, group)].assignment != map[] ==> topic in topics
      modifies this`groups
      ensures var st := old(groups[(topic, group)]);
        groups == old(groups)[(topic, group) := st.(assignment :=
          if st.assignment == map[] then map[] else Rebalanced(st.assignment.Keys, |topics[topic]|))]
    {
      var state := groups[(topic, group)];
      if state.assignment == map[] { return; }
      var assignment := Deal(state.assignment, |topics[topic]|);
      groups := groups[(topic, group) := state.(assignment := assignment)];
    }

    /** The loops of `_rebalance`: clear every member's share, then deal the partitions in turn. */
    static method Deal(before: Assignment, count: nat) returns (assignment: Assignment)
      requires before != map[]
      ensures assignment == Rebalanced(before.Keys, count)
    {
      hide SortedIds, OwnerOf, Rebalanced;
      assignment := before;
      var members := assignment.Keys;
      assert members != {} by { assert assignment != map[]; }
      var consumers := SortedIds(members);
      for i := 0 to |consumers|
        invariant assignment.Keys == members
        invariant forall k :: 0 <= k < i ==> assignment[consumers[k]] == {}
      {
        assert consumers[i] in consumers;
        assignment := assignment[consumers[i] := {}];
      }
      assert forall id :: id in members ==> id in consumers;
      NothingDealt(assignment);
      for partition := 0 to count
        invariant assignment == Rebalanced(members, partition)
      {
        var owner := consumers[partition % |consumers|];
        OwnerByPosition(members, partition);
        DealOne(members, partition);
        assignment := assignment[owner := assignment[owner] + {partition}];
      }
    }

    /** Join a group and be dealt a share of its partitions, which is answered. */
    method JoinGroup(topic: string, group: string, id: string) returns (r: Result<set<nat>, BrokerError>)
      requires Valid()
      modifies this
      ensures Valid() && topics == old(WithTopic(topic))
      ensures topic !in topics ==> r == Err(ValueError) && groups == old(groups)
      ensures topic in topics ==>
        && groups == old(groups)[(topic, group) := StateOf(topic, group)]
        && View(topic, group) == BrokerModel.JoinGroup(old(StateOf(topic, group)).View(|topics[topic]|), id)
        && r == Ok(StateOf(topic, group).assignment[id])
    {
      var ensured := EnsureTopic(topic);
      if ensured.Err? { return Err(ensured.error); }
      var state := StateOf(topic, group);
      if id !in state.assignment {
        state := state.(assignment := state.assignment[id := {}]);
      }
      assert state.assignment.Keys == old(StateOf(topic, group)).assignment.Keys + {id};
      groups := groups[(topic, group) := state];
      Rebalance(topic, group);
      return Ok(groups[(topic, group)].assignment[id]);
    }

    /** Leave a group: the leaver's uncommitted reads roll back, and its partitions go to the others. */
    method LeaveGroup(topic: string, group: string, id: string)
      requires Valid()
      modifies this`groups
      ensures Valid()
      ensures groups == old(groups)[(topic, group) := StateOf(topic, group)]
      ensures topic in topics ==> View(topic, group) == BrokerModel.LeaveGroup(old(View(topic, group)), id)
      ensures topic !in topics ==> StateOf(topic, group) == old(StateOf(topic, group))
    {
      hide Rebalanced, OwnerOf, Rewound, Offsets, At;
      var state := StateOf(topic, group);
      groups := groups[(topic, group) := state];
      assert StateOf(topic, group) == state && groups == old(groups)[(topic, group) := StateOf(topic, group)];
      if id !in state.assignment { return; }
      var orphaned := state.assignment[id];
      var position := RollBack(state, orphaned);
      groups := groups[(topic, group) := GroupState(state.committed, position, state.assignment - {id})];
      Rebalance(topic, group);
      assert (state.assignment - {id}).Keys == old(StateOf(topic, group)).assignment.Keys - {id};
      if topic in topics { RolledBack(state, position, orphaned, |topics[topic]|); }
    }

    /** The loop that resets read positions to committed offsets. */
    static method RollBack(state: GroupState, partitions: set<nat>) returns (position: map<nat, nat>)
      ensures forall p: nat :: At(position, p) == if p in partitions then At(state.committed, p) else At(state.position, p)
    {
      position := state.position;
      var todo := partitions;
      while todo != {}
        invariant todo <= partitions
        invariant forall p: nat ::
          At(position, p) == if p in partitions && p !in todo then At(state.committed, p) else At(state.position, p)
        decreases |todo|
      {
        var p :| p in todo;
        position := position[p := At(state.committed, p)];
        todo := todo - {p};
      }
    }

    // ---- poll, commit, seek ----

    /** Fetch up to `max` records from the partitions the consumer owns, and read ahead past them. */
    method Poll(topic: string, group: string, id: string, max: int) returns (r: Result<seq<ConsumedRecord>, BrokerError>)
      requires Valid()
      modifies this
      ensures Valid() && topics == old(WithTopic(topic))
      ensures var owned := OwnedBy(old(StateOf(topic, group)).assignment, id);
        if owned == {} then
          && r == Err(if topic in topics then DeliveryError else ValueError)
          && groups == old(groups)
        else
          && topic in old(topics)
          && (forall p :: p in owned ==> p < |topics[topic]|)
          && groups == old(groups)[(topic, group) := StateOf(topic, group)]
          && r == Ok(Delivery(topics[topic], topic, old(View(topic, group)), id, max))
          && View(topic, group) == Polled(old(View(topic, group)), r.value)
    {
      hide Rebalanced, Slice, Unread, SortedNats;
      var ensured := EnsureTopic(topic);
      if ensured.Err? { return Err(ensured.error); }
      var state := StateOf(topic, group);
      if OwnedBy(state.assignment, id) != {} { OwnedInRange(state.assignment, |topics[topic]|, id); }
      var owned := SortedNats(OwnedBy(state.assignment, id));
      if p :| p in OwnedBy(state.assignment, id) { assert p in owned; }
      if owned == [] { return Err(DeliveryError); }
      assert owned[0] in owned;
      assert forall i :: 0 <= i < |owned| ==> owned[i] in OwnedBy(state.assignment, id);
      var out, position := PollLoop(topics[topic], topic, state.position, owned, max);
      groups := groups[(topic, group) := state.(position := position)];
      ghost var g := old(View(topic, group));
      assert View(topic, group).position == Polled(g, out).position;
      assert View(topic, group) == Polled(g, out);
      return Ok(out);
    }

    /** The loop that raises committed offsets, none of them backwards. */
    static method RaiseTo(state: GroupState, offsets: map<nat, int>) returns (committed: map<nat, nat>)
      ensures forall p: nat ::
        At(committed, p) == if p in offsets && offsets[p] > At(state.committed, p) then offsets[p] else At(state.committed, p)
    {
      committed := state.committed;
      var todo := offsets.Keys;
      while todo != {}
        invariant todo <= offsets.Keys
        invariant forall p: nat ::
          At(committed, p) == if p in offsets && p !in todo && offsets[p] > At(state.committed, p)
                              then offsets[p] else At(state.committed, p)
        decreases |todo|
      {
        var p :| p in todo;
        if offsets[p] > At(committed, p) {
          committed := committed[p := offsets[p]];
        }
        todo := todo - {p};
      }
    }

    /** Raise the group's committed offsets to those given; an offset never moves backwards. */
    method Commit(topic: string, group: string, offsets: map<nat, int>)
      requires Valid()
      modifies this`groups
      ensures Valid()
      ensures groups == old(groups)[(topic, group) := StateOf(topic, group)]
      ensures var before, after := old(StateOf(topic, group)), StateOf(topic, group);
        && after.position == before.position && after.assignment == before.assignment
        && forall p: nat :: At(after.committed, p) ==
             if p in offsets && offsets[p] > At(before.committed, p) then offsets[p] else At(before.committed, p)
      ensures topic in topics ==> View(topic, group) == BrokerModel.Commit(old(View(topic, group)), offsets)
    {
      hide Rebalanced, OwnerOf, Offsets, At;
      var state := StateOf(topic, group);
      var committed := RaiseTo(state, offsets);
      groups := groups[(topic, group) := state.(committed := committed)];
      if topic in topics { Raised(state, committed, offsets, |topics[topic]|); }
    }

    /** Rewind the read positions of some partitions to the group's committed offsets. */
    method SeekToCommitted(topic: string, group: string, partitions: set<nat>)
      requires Valid()
      modifies this`groups
      ensures Valid()
      ensures groups == old(groups)[(topic, group) := StateOf(topic, group)]
      ensures var before, after := old(StateOf(topic, group)), StateOf(topic, group);
        && after.committed == before.committed && after.assignment == before.assignment
        && forall p: nat :: At(after.position, p) ==
             if p in partitions then At(before.committed, p) else At(before.position, p)
      ensures topic in topics ==>
        View(topic, group) == BrokerModel.SeekToCommitted(old(View(topic, group)), partitions)
    {
      hide Rebalanced, OwnerOf, Rewound, Offsets;
      var state := StateOf(topic, group);
      var position := RollBack(state, partitions);
      groups := groups[(topic, group) := state.(position := position)];
      if topic in topics { RolledBack(state, position, partitions, |topics[topic]|); }
    }

    /** The inner loop of `poll`: one partition's records from a position on, until `max` are out. */
    static method ReadOn(logs: TopicLogs, topic: string, p: nat, start: nat, before: seq<ConsumedRecord>, max: int)
      returns (out: seq<ConsumedRecord>, pos: nat)
      requires p < |logs|
      ensures var tail := Tail(logs, topic, p, start);
        && start <= pos && pos - start <= |tail| && out == before + tail[..pos - start]
        && (|out| <= max || out == before)
        && (pos - start == |tail| || |out| >= max)
    {
      ghost var tail := Tail(logs, topic, p, start);
      out, pos := before, start;
      while pos < |logs[p]| && |out| < max
        invariant start <= pos && pos - start <= |tail| && out == before + tail[..pos - start]
        invariant |out| <= max || out == before
        decreases |logs[p]| - pos
      {
        out := out + [ConsumedRecord(topic, p, pos, logs[p][pos])];
        pos := pos + 1;
      }
    }

    /** The outer loop of `poll`: partition by partition, until `max` are out. */
    static method PollLoop(logs: TopicLogs, topic: string, start: map<nat, nat>, owned: seq<nat>, max: int)
      returns (out: seq<ConsumedRecord>, position: map<nat, nat>)
      requires NoDuplicates(owned) && forall i :: 0 <= i < |owned| ==> owned[i] < |logs|
      ensures out == Take(Unread(logs, topic, Offsets(start, |logs|), owned), max)
      ensures forall p: nat :: At(position, p) == At(start, p) + |Slice(out, p)|
    {
      hide Slice, Tail, Unread, Take, At, Offsets;
      ghost var from := Offsets(start, |logs|);
      OffsetsAt(start, |logs|);
      NoSlices();
      NoneUnread(logs, topic, from);
      assert owned[..0] == [];
      out, position := [], start;
      var i := 0;
      while i < |owned|
        invariant 0 <= i <= |owned|
        invariant out == Unread(logs, topic, from, owned[..i])
        invariant i > 0 ==> |out| < max
        invariant forall p: nat :: At(position, p) == At(start, p) + |Slice(out, p)|
      {
        var p := owned[i];
        ghost var before, tail := out, Tail(logs, topic, p, from[p]);
        NothingYet(logs, topic, from, owned, i);
        var pos;
        out, pos := ReadOn(logs, topic, p, At(position, p), out, max);
        ghost var taken := tail[..pos - from[p]];
        PositionMoves(start, position, before, taken, p);
        position := position[p := pos];
        i := i + 1;
        UnreadStep(logs, topic, from, owned, i);
        if |out| >= max {
          TakePrefix(before, tail, out, max);
          StopHere(logs, topic, from, owned, i, out, max);
          return;
        }
      }
      assert owned[..i] == owned;
      TakeAll(out, max, i > 0);
    }
  }
}
