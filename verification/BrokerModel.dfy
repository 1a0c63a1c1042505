/**
 The broker's behaviour as functions on values: what each method of the in-memory broker does to
 a topic's logs and to one consumer group, and what those functions promise (eventbus/broker.py).
 */
module BrokerModel {
  import opened Prelude
  import opened EventTypes
  import opened Ordering

  // ---- partitioning ----

  /** The partition of a key, for a stable hash of the key. */
  function PartitionFor(hash: string -> nat, key: string, count: nat): (p: nat)
    requires count >= 1
    ensures p < count
  {
    hash(key) % count
  }

  function Append(logs: TopicLogs, hash: string -> nat, record: EventRecord): (r: TopicLogs)
    requires |logs| >= 1
    ensures |r| == |logs|
  {
    var p := PartitionFor(hash, record.key, |logs|);
    logs[p := logs[p] + [record]]
  }

  function AppendAll(logs: TopicLogs, hash: string -> nat, records: seq<EventRecord>): (r: TopicLogs)
    requires |logs| >= 1
    ensures |r| == |logs|
    decreases |records|
  {
    if records == [] then logs
    else Append(AppendAll(logs, hash, records[..|records| - 1]), hash, records[|records| - 1])
  }

  // ---- consumer groups ----

  type Assignment = map<string, set<nat>>

  /** A group's view of one topic: one committed offset and one read position for each partition. */
  datatype Group = Group(committed: seq<nat>, position: seq<nat>, assignment: Assignment) {
    predicate Sized(n: nat) { |committed| == n && |position| == n }
  }

  /** The group nobody has joined yet, on a topic of `n` partitions. */
  function EmptyGroup(n: nat): (g: Group)
    ensures g.Sized(n)
  {
    var zeros := seq(n, _ => 0);
    Group(zeros, zeros, map[])
  }

  function OwnedBy(assignment: Assignment, id: string): set<nat> {
    if id in assignment then assignment[id] else {}
  }

  /** The member that a partition is dealt to: round robin over the sorted members. */
  function OwnerOf(members: set<string>, p: nat): (id: string)
    requires members != {}
    ensures id in members
  {
    var ids := SortedIds(members);
    ids[p % |ids|]
  }

  /** The assignment `_rebalance` computes for a set of members and a number of partitions. */
  function Rebalanced(members: set<string>, n: nat): (a: Assignment)
    ensures a.Keys == members
  {
    map id | id in members :: set p: nat | p < n && OwnerOf(members, p) == id
  }

  /** `join_group`: offsets untouched, partitions dealt out again. */
  function JoinGroup(g: Group, id: string): Group {
    g.(assignment := Rebalanced(g.assignment.Keys + {id}, |g.committed|))
  }

  function Rewound(g: Group, partitions: set<nat>): (r: seq<nat>)
    requires |g.committed| == |g.position|
    ensures |r| == |g.position|
  {
    seq(|g.position|, p requires 0 <= p < |g.position| =>
      if p in partitions then g.committed[p] else g.position[p])
  }

  /** `leave_group`: the leaver's partitions go back to their committed offsets, then all are dealt out. */
  function LeaveGroup(g: Group, id: string): Group
    requires |g.committed| == |g.position|
  {
    if id !in g.assignment then g
    else
      Group(g.committed, Rewound(g, g.assignment[id]), Rebalanced(g.assignment.Keys - {id}, |g.committed|))
  }

  /** `seek_to_committed`. */
  function SeekToCommitted(g: Group, partitions: set<nat>): Group
    requires |g.committed| == |g.position|
  {
    g.(position := Rewound(g, partitions))
  }

  /** `commit`: each offset is raised to the one given, never lowered. Any integer is accepted. */
  function Commit(g: Group, offsets: map<nat, int>): Group {
    g.(committed := seq(|g.committed|, p requires 0 <= p < |g.committed| =>
      if p in offsets && offsets[p] > g.committed[p] then offsets[p] else g.committed[p]))
  }

  // ---- poll ----

  /** Everything a partition holds from an offset on, as it would be delivered. */
  function Tail(logs: TopicLogs, topic: string, p: nat, from: nat): (r: seq<ConsumedRecord>)
    ensures |r| == if p < |logs| && from <= |logs[p]| then |logs[p]| - from else 0
    ensures forall i :: 0 <= i < |r| ==> r[i] == ConsumedRecord(topic, p, from + i, logs[p][from + i])
  {
    if p < |logs| && from <= |logs[p]| then
      seq(|logs[p]| - from, i requires 0 <= i < |logs[p]| - from =>
        ConsumedRecord(topic, p, from + i, logs[p][from + i]))
    else []
  }

  /** The unread records of the given partitions, one partition after the other. */
  function Unread(logs: TopicLogs, topic: string, position: seq<nat>, owned: seq<nat>): seq<ConsumedRecord>
    requires forall i :: 0 <= i < |owned| ==> owned[i] < |position|
  {
    if owned == [] then []
    else
      var last := owned[|owned| - 1];
      Unread(logs, topic, position, owned[..|owned| - 1]) + Tail(logs, topic, last, position[last])
  }

  /** The simple form of a poll: the first `max` unread records, partitions in ascending order. */
  function Delivery(logs: TopicLogs, topic: string, g: Group, id: string, max: int): seq<ConsumedRecord>
    requires forall p :: p in OwnedBy(g.assignment, id) ==> p < |g.position|
  {
    var owned := SortedNats(OwnedBy(g.assignment, id));
    assert forall i :: 0 <= i < |owned| ==> owned[i] in owned;
    Take(Unread(logs, topic, g.position, owned), max)
  }

  /** The records of one partition within a batch, in batch order. */
  function Slice(batch: seq<ConsumedRecord>, p: nat): seq<ConsumedRecord> {
    if batch == [] then []
    else (if batch[0].partition == p then [batch[0]] else []) + Slice(batch[1..], p)
  }

  /** `poll`'s effect on the group: each position moves by the number of records delivered. */
  function Polled(g: Group, batch: seq<ConsumedRecord>): Group {
    g.(position := seq(|g.position|, p requires 0 <= p < |g.position| => g.position[p] + |Slice(batch, p)|))
  }

  // ---- lemmas: round robin ----

  lemma {:induction false} MulMonotone(a: nat, b: nat, k: nat)
    requires a <= b
    ensures a * k <= b * k
  {
    assert b * k - a * k == (b - a) * k;
  }

  lemma ModUnique(n: nat, k: nat, q: nat, r: nat)
    requires r < k && n == q * k + r
    ensures n % k == r
  {
    var q', r' := n / k, n % k;
    assert q' * k + r' == q * k + r;
    if q > q' {
      assert q * k >= (q' + 1) * k by { MulMonotone(q' + 1, q, k); }
    } else if q < q' {
      assert q' * k >= (q + 1) * k by { MulMonotone(q + 1, q', k); }
    }
  }

  lemma ModSucc(n: nat, k: nat)
    requires k >= 1
    ensures (n + 1) % k == if n % k == k - 1 then 0 else n % k + 1
  {
    var q, r := n / k, n % k;
    assert n == q * k + r;
    if r == k - 1 {
      assert n + 1 == (q + 1) * k + 0;
      ModUnique(n + 1, k, q + 1, 0);
    } else {
      ModUnique(n + 1, k, q, r + 1);
    }
  }

  /** The partition is what the hash leaves over when the partitions are counted round and round. */
  lemma PartitionIsTheRemainder(hash: string -> nat, key: string, count: nat, rounds: nat, p: nat)
    requires count >= 1 && p < count
    ensures hash(key) == rounds * count + p ==> PartitionFor(hash, key, count) == p
  {
    if hash(key) == rounds * count + p { ModUnique(hash(key), count, rounds, p); }
  }

  function Share(n: nat, k: nat, i: nat): set<nat>
    requires k >= 1
  {
    set p: nat | p < n && p % k == i
  }

  /** How many partitions each member gets: all the same number, or one more for the first few. */
  lemma {:induction false} ShareSizes(n: nat, k: nat) returns (q: nat)
    requires k >= 1
    ensures forall i :: 0 <= i < k ==> |Share(n, k, i)| == q + (if i < n % k then 1 else 0)
  {
    if n == 0 {
      q := 0;
      forall i | 0 <= i < k ensures |Share(0, k, i)| == 0 {
        assert Share(0, k, i) == {};
      }
    } else {
      var q0 := ShareSizes(n - 1, k);
      ModSucc(n - 1, k);
      var r := (n - 1) % k;
      forall i | 0 <= i < k
        ensures |Share(n, k, i)| == |Share(n - 1, k, i)| + (if i == r then 1 else 0)
      {
        if i == r {
          assert Share(n, k, i) == Share(n - 1, k, i) + {n - 1};
        } else {
          assert Share(n, k, i) == Share(n - 1, k, i);
        }
      }
      q := if r == k - 1 then q0 + 1 else q0;
    }
  }

  /** Every partition has exactly one owner, nothing else is owned, and owner loads differ by at most one. */
  lemma RebalanceIsFair(members: set<string>, n: nat)
    requires members != {}
    ensures forall id, p: nat :: id in members ==>
      (p in Rebalanced(members, n)[id] <==> p < n && id == OwnerOf(members, p))
    ensures forall id, id' :: id in members && id' in members ==>
      |Rebalanced(members, n)[id]| <= |Rebalanced(members, n)[id']| + 1
  {
    var ids := SortedIds(members);
    var k := |ids|;
    var q := ShareSizes(n, k);
    forall id | id in members ensures q <= |Rebalanced(members, n)[id]| <= q + 1 {
      var i :| 0 <= i < k && ids[i] == id;
      assert forall p: nat :: OwnerOf(members, p) == id <==> p % k == i;
      assert Rebalanced(members, n)[id] == Share(n, k, i);
    }
  }

  datatype Move = Joins(id: string) | Leaves(id: string)

  function AfterMoves(n: nat, moves: seq<Move>): (g: Group)
    ensures g.Sized(n)
  {
    if moves == [] then EmptyGroup(n)
    else
      var before := AfterMoves(n, moves[..|moves| - 1]);
      match moves[|moves| - 1]
      case Joins(id) => JoinGroup(before, id)
      case Leaves(id) => LeaveGroup(before, id)
  }

  function MembersAfter(moves: seq<Move>): set<string> {
    if moves == [] then {}
    else
      var before := MembersAfter(moves[..|moves| - 1]);
      match moves[|moves| - 1]
      case Joins(id) => before + {id}
      case Leaves(id) => before - {id}
  }

  /** After any history of joins and leaves the assignment is a function of the current members alone. */
  lemma {:induction false} AssignmentForgetsHistory(n: nat, moves: seq<Move>)
    ensures AfterMoves(n, moves).assignment == Rebalanced(MembersAfter(moves), n)
  {
    if moves != [] {
      AssignmentForgetsHistory(n, moves[..|moves| - 1]);
      var before := AfterMoves(n, moves[..|moves| - 1]);
      match moves[|moves| - 1]
      case Joins(id) =>
      case Leaves(id) =>
        if id !in before.assignment {
          assert before.assignment.Keys - {id} == before.assignment.Keys;
        }
    }
  }

  /**
   The group's documentation says a read position is reset to the committed offset when a partition
   is reassigned. `_rebalance` resets only the leaver's partitions, so after a join or leave every
   partition with a new owner stands at its committed offset if and only if those that pass between
   two surviving members already did.
   */
  ghost predicate ReassignedAreRewound(g: Group, g': Group)
    requires g'.Sized(|g.position|)
  {
    forall id, p: nat ::
      id in g'.assignment && p in g'.assignment[id] && p < |g.position| && p !in OwnedBy(g.assignment, id)
      ==> g'.position[p] == g'.committed[p]
  }

  /** The partition was read by one surviving member and is now read by another. */
  ghost predicate ChangesHands(g: Group, g': Group, p: nat) {
    exists id :: id in g.assignment && id in g'.assignment && p in g.assignment[id] && p !in g'.assignment[id]
  }

  /** The assignment is the one `_rebalance` computed, and an unowned partition is not read ahead. */
  ghost predicate Dealt(g: Group) {
    && g.Sized(|g.committed|)
    && g.assignment == Rebalanced(g.assignment.Keys, |g.committed|)
    && (g.assignment == map[] ==> g.position == g.committed)
  }

  /** One owner per partition, in the terms of a dealt assignment. */
  lemma OwnerIsUnique(a: Assignment, n: nat, id: string, p: nat)
    requires a == Rebalanced(a.Keys, n) && id in a
    ensures p in a[id] <==> p < n && id == OwnerOf(a.Keys, p)
  {
  }

  lemma NewOwnerStartsRewound(g: Group, g': Group, orphaned: set<nat>, id: string, p: nat)
    requires Dealt(g) && g'.Sized(|g.committed|) && g'.committed == g.committed
    requires g'.position == Rewound(g, orphaned)
    requires g'.assignment == Rebalanced(g'.assignment.Keys, |g.committed|)
    requires forall id, p :: id in g.assignment && p in g.assignment[id] ==>
      (p in orphaned <==> id !in g'.assignment)
    requires p < |g.committed|
    requires ChangesHands(g, g', p) ==> g.position[p] == g.committed[p]
    requires id in g'.assignment && p in g'.assignment[id] && p !in OwnedBy(g.assignment, id)
    ensures g'.position[p] == g'.committed[p]
  {
    var n := |g.committed|;
    if g.assignment.Keys == {} {
      assert g.assignment == map[];
    } else {
      var o := OwnerOf(g.assignment.Keys, p);
      OwnerIsUnique(g.assignment, n, o, p);
      assert o in g.assignment && p in g.assignment[o];
      if o in g'.assignment {
        OwnerIsUnique(g'.assignment, n, o, p);
        OwnerIsUnique(g'.assignment, n, id, p);
        assert ChangesHands(g, g', p);
      }
    }
  }

  lemma RewindsExactly(g: Group, g': Group, orphaned: set<nat>)
    requires Dealt(g) && g'.Sized(|g.committed|) && g'.committed == g.committed
    requires g'.assignment == Rebalanced(g'.assignment.Keys, |g.committed|)
    requires g'.position == Rewound(g, orphaned)
    requires forall id, p :: id in g.assignment && p in g.assignment[id] ==>
      (p in orphaned <==> id !in g'.assignment)
    ensures ReassignedAreRewound(g, g') <==>
      forall p: nat :: p < |g.position| && ChangesHands(g, g', p) ==> g.position[p] == g.committed[p]
  {
    var n := |g.committed|;
    if ReassignedAreRewound(g, g') {
      forall p: nat | p < n && ChangesHands(g, g', p) ensures g.position[p] == g.committed[p] {
        var id :| id in g.assignment && id in g'.assignment && p in g.assignment[id] && p !in g'.assignment[id];
        var id' := OwnerOf(g'.assignment.Keys, p);
        OwnerIsUnique(g'.assignment, n, id', p);
        OwnerIsUnique(g.assignment, n, id, p);
        if id' in g.assignment { OwnerIsUnique(g.assignment, n, id', p); }
        assert p in g'.assignment[id'] && p !in OwnedBy(g.assignment, id');
      }
    }
    if forall p: nat :: p < n && ChangesHands(g, g', p) ==> g.position[p] == g.committed[p] {
      forall id, p: nat | id in g'.assignment && p in g'.assignment[id] && p < n && p !in OwnedBy(g.assignment, id)
        ensures g'.position[p] == g'.committed[p]
      {
        NewOwnerStartsRewound(g, g', orphaned, id, p);
      }
    }
  }

  lemma JoinRewindsExactly(g: Group, id: string)
    requires Dealt(g)
    ensures var g' := JoinGroup(g, id);
      ReassignedAreRewound(g, g') <==>
        forall p: nat :: p < |g.position| && ChangesHands(g, g', p) ==> g.position[p] == g.committed[p]
  {
    RewindsExactly(g, JoinGroup(g, id), {});
  }

  lemma LeaveRewindsExactly(g: Group, id: string)
    requires Dealt(g)
    ensures var g' := LeaveGroup(g, id);
      ReassignedAreRewound(g, g') <==>
        forall p: nat :: p < |g.position| && ChangesHands(g, g', p) ==> g.position[p] == g.committed[p]
  {
    RewindsExactly(g, LeaveGroup(g, id), OwnedBy(g.assignment, id));
  }
}
