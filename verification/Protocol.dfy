/**
 The event bus as a state machine: producers, and any number of consumer instances of one group,
 each taking its broker calls and record handlings one at a time in any interleaving, and crashing
 anywhere in between. Every broker method runs under one lock, so each is one step.
 */
module Protocol {
  import opened Prelude
  import opened EventTypes
  import opened Ordering
  import opened BrokerModel
  import opened PollModel
  import opened ConsumerModel
  import opened CycleLaws

  /** A live consumer instance: between cycles, inside a batch, or committed and about to rewind. */
  datatype Member =
    | Resting(local: Local)
    | Working(work: Work)
    | Rewinding(done: Local, seekBack: set<nat>)
  {
    function Own(): Local {
      match this
      case Resting(l) => l
      case Working(w) => w.local
      case Rewinding(l, _) => l
    }
  }

  /**
   The whole system. `sink` is the store all instances share, into which the processor inserts a
   signature if it is absent; `handled` is a history: which offsets of each partition some instance
   has handled for good.
   */
  datatype System = System(
    logs: TopicLogs, dead: TopicLogs, group: Group, members: map<string, Member>,
    sink: set<string>, handled: seq<set<nat>>)

  datatype Step =
    | Produce(record: EventRecord)
    | Join(id: string)
    | Leave(id: string)
    | Crash(id: string)
    | Poll(id: string, max: int)
    | Handle(id: string, outcome: Outcome)
    | Commit(id: string)
    | Seek(id: string)

  predicate Rebalances(step: Step) {
    step.Join? || step.Leave? || step.Crash?
  }

  predicate Sizes(s: System) {
    |s.logs| >= 1 && |s.dead| >= 1 && s.group.Sized(|s.logs|) && |s.handled| == |s.logs|
  }

  predicate Enabled(s: System, step: Step) {
    match step
    case Produce(_) => true
    case Join(id) => id in s.members ==> s.members[id].Resting?
    case Leave(id) => id in s.group.assignment && id in s.members && s.members[id].Resting?
    case Crash(id) => id in s.members
    case Poll(id, _) =>
      id in s.members && s.members[id].Resting? && OwnedBy(s.group.assignment, id) != {}
      && forall p :: p in OwnedBy(s.group.assignment, id) ==> p < |s.group.position|
    case Handle(id, _) => id in s.members && s.members[id].Working? && s.members[id].work.pending != []
    case Commit(id) => id in s.members && s.members[id].Working? && s.members[id].work.pending == []
    case Seek(id) => id in s.members && s.members[id].Rewinding?
  }

  function AfterHandling(cfg: Config, s: System, id: string, a: Advance): System
    requires Sizes(s) && id in s.members && s.members[id].Working? && s.members[id].work.pending != []
  {
    var w := s.members[id].work;
    var c := w.pending[0];
    System(s.logs,
      match a.fate case Quarantined(copy) => Append(s.dead, cfg.hash, copy) case _ => s.dead,
      s.group,
      s.members[id := Working(a.work)],
      s.sink + (a.work.local.seen - w.local.seen),
      if a.fate.Skipped? || a.fate.Retried? || c.partition >= |s.handled| then s.handled
      else s.handled[c.partition := s.handled[c.partition] + {c.offset}])
  }

  function Apply(cfg: Config, s: System, step: Step): System
    requires Sizes(s) && Enabled(s, step)
  {
    match step
    case Produce(record) => s.(logs := Append(s.logs, cfg.hash, record))
    case Join(id) =>
      s.(group := JoinGroup(s.group, id),
         members := if id in s.members then s.members else s.members[id := Resting(NewLocal())])
    case Leave(id) => s.(group := LeaveGroup(s.group, id))
    case Crash(id) => s.(group := LeaveGroup(s.group, id), members := s.members - {id})
    case Poll(id, max) =>
      var batch := Delivery(s.logs, cfg.topic, s.group, id, max);
      var l := s.members[id].local;
      s.(group := Polled(s.group, batch),
         members := s.members[id := if batch == [] then Resting(l) else Working(NewCycle(l, batch, 0).work)])
    case Handle(id, outcome) => AfterHandling(cfg, s, id, HandleNext(cfg, s.members[id].work, outcome))
    case Commit(id) =>
      var w := s.members[id].work;
      s.(group := BrokerModel.Commit(s.group, w.frontier), members := s.members[id := Rewinding(w.local, w.seekBack)])
    case Seek(id) =>
      s.(group := SeekToCommitted(s.group, s.members[id].seekBack), members := s.members[id := Resting(s.members[id].done)])
  }

  // ---- what the invariant says ----

  /** The first `n` offsets. */
  function Below(n: nat): (r: set<nat>)
    ensures forall o: nat :: o in r <==> o < n
  {
    if n == 0 then {} else Below(n - 1) + {n - 1}
  }

  lemma {:induction false} SomethingBeyond(h: set<nat>) returns (m: nat)
    ensures forall o :: o in h ==> o < m
  {
    if h == {} {
      m := 0;
    } else {
      var x :| x in h;
      var k := SomethingBeyond(h - {x});
      m := if k > x then k else x + 1;
      assert forall o :: o in h ==> o == x || o in h - {x};
    }
  }

  lemma {:induction false} LeastMissing(h: set<nat>, m: nat)
    requires m !in h
    ensures exists k: nat :: k !in h && forall o: nat :: o < k ==> o in h
  {
    if j: nat :| j < m && j !in h { LeastMissing(h, j); }
  }

  lemma SomeMissing(h: set<nat>)
    ensures exists m: nat :: m !in h && forall o: nat :: o < m ==> o in h
  {
    var m := SomethingBeyond(h);
    LeastMissing(h, m);
  }

  /** How many of a partition's records, from the first on and without a gap, have been handled. */
  ghost function Height(h: set<nat>): (m: nat)
    ensures m !in h && Below(m) <= h
  {
    SomeMissing(h);
    var m: nat :| m !in h && forall o: nat :: o < m ==> o in h;
    m
  }

  ghost function Heights(s: System): (r: seq<nat>)
    ensures |r| == |s.handled|
  {
    seq(|s.handled|, p requires 0 <= p < |s.handled| => Height(s.handled[p]))
  }

  /** The offsets handled are always the first few: no gap. */
  ghost predicate Gapless(s: System) {
    forall p: nat :: p < |s.handled| ==> s.handled[p] == Below(Height(s.handled[p]))
  }

  lemma HeightIs(m: nat)
    ensures Height(Below(m)) == m
  {
    var k := Height(Below(m));
    assert k >= m;
    assert m in Below(k) ==> m in Below(m);
  }

  /** Handling an offset at or below the height raises the height to just above it, and leaves no gap. */
  lemma HeightAfter(h: set<nat>, o: nat)
    requires h == Below(Height(h)) && o <= Height(h)
    ensures var m := if o == Height(h) then o + 1 else Height(h);
      h + {o} == Below(m) && Height(h + {o}) == m
  {
    var m := if o == Height(h) then o + 1 else Height(h);
    assert h + {o} == Below(m);
    HeightIs(m);
  }

  ghost predicate InTopic(logs: TopicLogs, record: EventRecord) {
    exists p: nat :: p < |logs| && record in logs[p]
  }

  /** Processed or skipped as a duplicate, so its signature is in the sink, or copied to the dead-letter topic. */
  ghost predicate AccountedFor(cfg: Config, sink: set<string>, dead: TopicLogs, record: EventRecord) {
    || (Genuine(cfg, record).Some? && Genuine(cfg, record).value.signature in sink)
    || exists reason :: InTopic(dead, record.DeadLetteredFrom(cfg.topic, reason))
  }

  ghost predicate Bounds(s: System)
    requires Sizes(s)
  {
    forall p: nat :: p < |s.logs| ==>
      s.group.committed[p] <= Heights(s)[p] <= |s.logs[p]| && s.group.position[p] <= |s.logs[p]|
  }

  ghost predicate HandledAccounted(cfg: Config, s: System)
    requires Sizes(s)
  {
    forall p: nat, o: nat :: p < |s.logs| && o < Heights(s)[p] && o < |s.logs[p]| ==>
      AccountedFor(cfg, s.sink, s.dead, s.logs[p][o])
  }

  ghost predicate Membership(s: System) {
    && s.group.assignment == Rebalanced(s.group.assignment.Keys, |s.logs|)
    && (forall id :: id in s.group.assignment ==> id in s.members)
    && (forall id :: id in s.members && id !in s.group.assignment ==> s.members[id].Resting?)
  }

  /** Consecutive records of one partition, starting no later than `limit`. */
  ghost predicate Consecutive(logs: TopicLogs, topic: string, p: nat, records: seq<ConsumedRecord>, limit: nat)
    requires p < |logs|
  {
    records == [] ||
    var lo := records[0].offset;
    lo <= limit && lo + |records| <= |logs[p]| && records == Stretch(logs, topic, p, lo, lo + |records|)
  }

  /** A batch never skips ahead of what has been handled, and never offers to commit more than that. */
  ghost predicate BatchSafe(logs: TopicLogs, topic: string, handled: seq<nat>, w: Work) {
    && |handled| == |logs|
    && (forall p: nat :: p < |logs| && p !in w.seekBack ==> Consecutive(logs, topic, p, Slice(w.pending, p), handled[p]))
    && (forall p: nat :: p >= |logs| ==> Slice(w.pending, p) == [])
    && (forall p :: p in w.frontier ==> p < |logs| && w.frontier[p] <= handled[p])
  }

  ghost predicate MemberSafe(cfg: Config, s: System, m: Member) {
    && m.Own().seen <= s.sink
    && (m.Working? ==> BatchSafe(s.logs, cfg.topic, Heights(s), m.work))
  }

  /** The owner of a partition read beyond what is handled still holds the unhandled records, or will rewind. */
  ghost predicate Covers(m: Member, p: nat, position: nat) {
    match m
    case Resting(_) => false
    case Rewinding(_, seekBack) => p in seekBack
    case Working(w) =>
      p in w.seekBack || (Slice(w.pending, p) != [] && Slice(w.pending, p)[0].offset + |Slice(w.pending, p)| == position)
  }

  ghost predicate CoveredBy(s: System, p: nat, id: string)
    requires Sizes(s) && p < |s.logs|
  {
    id in s.group.assignment && id in s.members && p in s.group.assignment[id] && Covers(s.members[id], p, s.group.position[p])
  }

  ghost predicate Covered(s: System)
    requires Sizes(s)
  {
    forall p: nat :: p < |s.logs| && s.group.position[p] > Heights(s)[p] ==> exists id :: CoveredBy(s, p, id)
  }

  ghost predicate Produced(cfg: Config, logs: TopicLogs, signature: string) {
    exists p: nat, o: nat :: p < |logs| && o < |logs[p]| && Genuine(cfg, logs[p][o]) == Some(Transaction(signature))
  }

  ghost predicate SinkGenuine(cfg: Config, s: System) {
    forall sig :: sig in s.sink ==> Produced(cfg, s.logs, sig)
  }

  ghost predicate Routed(cfg: Config, logs: TopicLogs) {
    |logs| >= 1 && forall p: nat, o: nat :: p < |logs| && o < |logs[p]| ==> PartitionFor(cfg.hash, logs[p][o].key, |logs|) == p
  }

  ghost predicate Inv(cfg: Config, s: System) {
    && Sizes(s) && Gapless(s) && Bounds(s) && HandledAccounted(cfg, s) && Membership(s)
    && (forall id :: id in s.members ==> MemberSafe(cfg, s, s.members[id]))
    && Covered(s) && SinkGenuine(cfg, s) && Routed(cfg, s.logs)
  }

  /**
   The guard on joins, leaves and crashes: a partition that passes from one surviving member to
   another must not have been read beyond what has been handled.
   */
  ghost predicate SafeMove(s: System, g': Group)
    requires Sizes(s)
  {
    forall p: nat :: p < |s.logs| && ChangesHands(s.group, g', p) ==> s.group.position[p] <= Heights(s)[p]
  }

  ghost predicate Allowed(cfg: Config, s: System, step: Step) {
    Sizes(s) && Enabled(s, step) && (Rebalances(step) ==> SafeMove(s, Apply(cfg, s, step).group))
  }

  // ---- what only grows ----

  ghost predicate LogsGrow(a: TopicLogs, b: TopicLogs) {
    |a| == |b| && forall p: nat :: p < |a| ==> a[p] <= b[p]
  }

  ghost predicate Grows(s: System, s': System) {
    && Sizes(s) && Sizes(s') && LogsGrow(s.logs, s'.logs) && LogsGrow(s.dead, s'.dead) && s.sink <= s'.sink
    && forall p: nat :: p < |s.logs| ==> Heights(s)[p] <= Heights(s')[p]
  }

  lemma AppendGrows(logs: TopicLogs, hash: string -> nat, record: EventRecord)
    requires |logs| >= 1
    ensures LogsGrow(logs, Append(logs, hash, record))
  {
  }

  lemma BatchStaysSafe(logs: TopicLogs, logs': TopicLogs, topic: string, handled: seq<nat>, handled': seq<nat>, w: Work)
    requires BatchSafe(logs, topic, handled, w) && LogsGrow(logs, logs') && |handled'| == |logs|
    requires forall p: nat :: p < |logs| ==> handled[p] <= handled'[p]
    ensures BatchSafe(logs', topic, handled', w)
  {
    hide Slice;
    forall p: nat | p < |logs'| && p !in w.seekBack ensures Consecutive(logs', topic, p, Slice(w.pending, p), handled'[p]) {
      assert Consecutive(logs, topic, p, Slice(w.pending, p), handled[p]);
      assert logs[p] <= logs'[p];
    }
  }

  lemma MemberStaysSafe(cfg: Config, s: System, s': System, m: Member)
    requires Grows(s, s') && MemberSafe(cfg, s, m)
    ensures MemberSafe(cfg, s', m)
  {
    if m.Working? { BatchStaysSafe(s.logs, s'.logs, cfg.topic, Heights(s), Heights(s'), m.work); }
  }

  lemma AccountStays(cfg: Config, s: System, s': System, record: EventRecord)
    requires Grows(s, s') && AccountedFor(cfg, s.sink, s.dead, record)
    ensures AccountedFor(cfg, s'.sink, s'.dead, record)
  {
    if !(Genuine(cfg, record).Some? && Genuine(cfg, record).value.signature in s.sink) {
      var reason :| InTopic(s.dead, record.DeadLetteredFrom(cfg.topic, reason));
      var copy := record.DeadLetteredFrom(cfg.topic, reason);
      var p: nat :| p < |s.dead| && copy in s.dead[p];
      assert s.dead[p] <= s'.dead[p];
      assert copy in s'.dead[p];
      assert InTopic(s'.dead, copy);
    }
  }

  /** Records that were accounted for still are, and so is what the sink came from, when a step only adds. */
  lemma GrowthKeeps(cfg: Config, s: System, s': System)
    requires Inv(cfg, s) && Grows(s, s') && s'.handled == s.handled && s'.sink == s.sink
    ensures HandledAccounted(cfg, s') && SinkGenuine(cfg, s')
  {
    hide AccountedFor, Membership, Covered, MemberSafe;
    forall p: nat, o: nat | p < |s'.logs| && o < Heights(s')[p] && o < |s'.logs[p]|
      ensures AccountedFor(cfg, s'.sink, s'.dead, s'.logs[p][o])
    {
      assert o < Heights(s)[p] <= |s.logs[p]|;
      assert s.logs[p] <= s'.logs[p];
      AccountStays(cfg, s, s', s.logs[p][o]);
    }
    forall sig | sig in s'.sink ensures Produced(cfg, s'.logs, sig) {
      assert Produced(cfg, s.logs, sig);
      var p: nat, o: nat :| p < |s.logs| && o < |s.logs[p]| && Genuine(cfg, s.logs[p][o]) == Some(Transaction(sig));
      assert s.logs[p] <= s'.logs[p];
      assert s'.logs[p][o] == s.logs[p][o];
    }
  }

  // ---- preservation, step by step ----

  lemma ProduceKeeps(cfg: Config, s: System, record: EventRecord)
    requires Inv(cfg, s)
    ensures Inv(cfg, Apply(cfg, s, Produce(record)))
  {
    hide AccountedFor, Consecutive, BatchSafe, Rebalanced, OwnerOf, Slice;
    var s' := Apply(cfg, s, Produce(record));
    AppendGrows(s.logs, cfg.hash, record);
    assert LogsGrow(s.dead, s'.dead);
    GrowthKeeps(cfg, s, s');
    forall id | id in s'.members ensures MemberSafe(cfg, s', s'.members[id]) { MemberStaysSafe(cfg, s, s', s.members[id]); }
    forall p: nat | p < |s'.logs| && s'.group.position[p] > Heights(s')[p] ensures exists o :: CoveredBy(s', p, o) {
      var o :| CoveredBy(s, p, o);
      assert CoveredBy(s', p, o);
    }
  }

  /** Cursors moving back and partitions dealt out: what a join, leave or crash must not disturb. */
  lemma DealKeeps(cfg: Config, s: System, s': System, orphaned: set<nat>)
    requires Inv(cfg, s) && Sizes(s') && Membership(s') && SafeMove(s, s'.group)
    requires s'.logs == s.logs && s'.dead == s.dead && s'.sink == s.sink && s'.handled == s.handled
    requires s'.group.committed == s.group.committed && s'.group.position == Rewound(s.group, orphaned)
    requires forall id, p :: id in s.group.assignment && p in s.group.assignment[id] && p !in orphaned ==> id in s'.group.assignment
    requires forall id :: id in s'.members ==>
      if id in s.members then s'.members[id] == s.members[id] else s'.members[id] == Resting(NewLocal())
    ensures Inv(cfg, s')
  {
    hide AccountedFor, Consecutive, BatchSafe, Rebalanced, OwnerOf, Slice, Covers;
    GrowthKeeps(cfg, s, s');
    forall id | id in s'.members ensures MemberSafe(cfg, s', s'.members[id]) {
      if id in s.members { MemberStaysSafe(cfg, s, s', s.members[id]); }
    }
    forall p: nat | p < |s'.logs| && s'.group.position[p] > Heights(s')[p]
      ensures exists id :: CoveredBy(s', p, id)
    {
      assert p !in orphaned && s'.group.position[p] == s.group.position[p];
      var id :| CoveredBy(s, p, id);
      assert !ChangesHands(s.group, s'.group, p);
      assert CoveredBy(s', p, id);
    }
  }

  lemma JoinKeeps(cfg: Config, s: System, id: string)
    requires Inv(cfg, s) && Allowed(cfg, s, Join(id))
    ensures Inv(cfg, Apply(cfg, s, Join(id)))
  {
    hide AccountedFor, Consecutive, BatchSafe, OwnerOf, Slice, Covers, Covered, HandledAccounted, MemberSafe, SinkGenuine;
    var s' := Apply(cfg, s, Join(id));
    assert s'.group.position == Rewound(s.group, {});
    DealKeeps(cfg, s, s', {});
  }

  lemma LeaveKeeps(cfg: Config, s: System, id: string)
    requires Inv(cfg, s) && Allowed(cfg, s, Leave(id))
    ensures Inv(cfg, Apply(cfg, s, Leave(id)))
  {
    hide AccountedFor, Consecutive, BatchSafe, OwnerOf, Slice, Covers, Covered, HandledAccounted, MemberSafe, SinkGenuine;
    DealKeeps(cfg, s, Apply(cfg, s, Leave(id)), OwnedBy(s.group.assignment, id));
  }

  lemma CrashKeeps(cfg: Config, s: System, id: string)
    requires Inv(cfg, s) && Allowed(cfg, s, Crash(id))
    ensures Inv(cfg, Apply(cfg, s, Crash(id)))
  {
    hide AccountedFor, Consecutive, BatchSafe, OwnerOf, Slice, Covers, Covered, HandledAccounted, MemberSafe, SinkGenuine;
    var s' := Apply(cfg, s, Crash(id));
    assert id !in s.group.assignment ==> s'.group.position == Rewound(s.group, {});
    DealKeeps(cfg, s, s', OwnedBy(s.group.assignment, id));
  }

  lemma SeekKeeps(cfg: Config, s: System, id: string)
    requires Inv(cfg, s) && Enabled(s, Seek(id))
    ensures Inv(cfg, Apply(cfg, s, Seek(id)))
  {
    hide AccountedFor, Consecutive, BatchSafe, OwnerOf, Slice, Rebalanced;
    var s' := Apply(cfg, s, Seek(id));
    GrowthKeeps(cfg, s, s');
    forall o | o in s'.members ensures MemberSafe(cfg, s', s'.members[o]) { MemberStaysSafe(cfg, s, s', s.members[o]); }
    forall p: nat | p < |s'.logs| && s'.group.position[p] > Heights(s')[p] ensures exists o :: CoveredBy(s', p, o) {
      var o :| CoveredBy(s, p, o);
      assert CoveredBy(s', p, o);
    }
  }

  lemma CommitKeeps(cfg: Config, s: System, id: string)
    requires Inv(cfg, s) && Enabled(s, Commit(id))
    ensures Inv(cfg, Apply(cfg, s, Commit(id)))
  {
    hide AccountedFor, Consecutive, OwnerOf, Rebalanced;
    var s' := Apply(cfg, s, Commit(id));
    GrowthKeeps(cfg, s, s');
    assert MemberSafe(cfg, s, s.members[id]);
    forall o | o in s'.members ensures MemberSafe(cfg, s', s'.members[o]) {
      if o != id { MemberStaysSafe(cfg, s, s', s.members[o]); }
    }
    assert Slice([], 0) == [];
    assert Covered(s') by {
      forall p: nat | p < |s'.logs| && s'.group.position[p] > Heights(s')[p]
        ensures exists o :: CoveredBy(s', p, o)
      {
        var o :| CoveredBy(s, p, o);
        assert CoveredBy(s', p, o);
      }
    }
  }

  /** What a poll delivers of one partition starts where the partition is read, which is no further than it is handled. */
  lemma PolledPartition(cfg: Config, s: System, id: string, max: int, p: nat)
    requires Inv(cfg, s) && Enabled(s, Poll(id, max))
    ensures var records := Slice(Delivery(s.logs, cfg.topic, s.group, id, max), p);
      if p in OwnedBy(s.group.assignment, id) then
        && p < |s.logs| && s.group.position[p] <= Heights(s)[p]
        && s.group.position[p] + |records| <= |s.logs[p]|
        && (records != [] ==> records[0].offset == s.group.position[p])
        && Consecutive(s.logs, cfg.topic, p, records, Heights(s)[p])
      else records == []
  {
    hide AccountedFor, Rebalanced, OwnerOf, Delivery, Slice, MemberSafe, SinkGenuine, HandledAccounted, Routed;
    DeliverySlice(s.logs, cfg.topic, s.group, id, max, p);
    if p in OwnedBy(s.group.assignment, id) {
      if s.group.position[p] > Heights(s)[p] {
        var o :| CoveredBy(s, p, o);
        OwnerIsUnique(s.group.assignment, |s.logs|, o, p);
        OwnerIsUnique(s.group.assignment, |s.logs|, id, p);
        assert false;
      }
      var records := Slice(Delivery(s.logs, cfg.topic, s.group, id, max), p);
      assert records == Stretch(s.logs, cfg.topic, p, s.group.position[p], s.group.position[p] + |records|);
    }
  }

  lemma NoneIsConsecutive(logs: TopicLogs, topic: string, p: nat, limit: nat)
    requires p < |logs|
    ensures Consecutive(logs, topic, p, [], limit)
  {
  }

  /** A poll delivers from the read positions, which an idle owner has not moved beyond what is handled. */
  lemma PollKeeps(cfg: Config, s: System, id: string, max: int)
    requires Inv(cfg, s) && Enabled(s, Poll(id, max))
    ensures Inv(cfg, Apply(cfg, s, Poll(id, max)))
  {
    hide AccountedFor, OwnerOf, Rebalanced, Delivery, Slice, Consecutive;
    var s' := Apply(cfg, s, Poll(id, max));
    var batch := Delivery(s.logs, cfg.topic, s.group, id, max);
    GrowthKeeps(cfg, s, s');
    forall p: nat ensures
      if p in OwnedBy(s.group.assignment, id) then
        && p < |s.logs| && s.group.position[p] <= Heights(s)[p]
        && s.group.position[p] + |Slice(batch, p)| <= |s.logs[p]|
        && (Slice(batch, p) != [] ==> Slice(batch, p)[0].offset == s.group.position[p])
        && Consecutive(s.logs, cfg.topic, p, Slice(batch, p), Heights(s)[p])
      else Slice(batch, p) == []
    {
      PolledPartition(cfg, s, id, max, p);
    }
    assert MemberSafe(cfg, s, s.members[id]);
    forall p: nat | p < |s.logs| ensures Consecutive(s.logs, cfg.topic, p, Slice(batch, p), Heights(s)[p]) {
      if p !in OwnedBy(s.group.assignment, id) { NoneIsConsecutive(s.logs, cfg.topic, p, Heights(s)[p]); }
    }
    forall o | o in s'.members ensures MemberSafe(cfg, s', s'.members[o]) {
      if o != id { MemberStaysSafe(cfg, s, s', s.members[o]); }
    }
    assert Covered(s') by {
      forall p: nat | p < |s'.logs| && s'.group.position[p] > Heights(s')[p] ensures exists o :: CoveredBy(s', p, o) {
        if p in OwnedBy(s.group.assignment, id) {
          if batch == [] { SliceUniform(batch, p, p); }
          assert CoveredBy(s', p, id);
        } else {
          var o :| CoveredBy(s, p, o);
          assert CoveredBy(s', p, o);
        }
      }
    }
  }

  /** A record about to be handled is the partition's own, and everything before it is handled already. */
  lemma NextInOrder(cfg: Config, s: System, id: string)
    requires Inv(cfg, s) && id in s.members && s.members[id].Working? && s.members[id].work.pending != []
    ensures var w := s.members[id].work;
      var c := w.pending[0];
      && c.partition < |s.logs|
      && (c.partition !in w.seekBack ==>
           && c.offset <= Heights(s)[c.partition] && c.offset < |s.logs[c.partition]|
           && c == ConsumedRecord(cfg.topic, c.partition, c.offset, s.logs[c.partition][c.offset])
           && Consecutive(s.logs, cfg.topic, c.partition, Slice(w.pending[1..], c.partition), c.offset + 1)
           && (Slice(w.pending[1..], c.partition) != [] ==> Slice(w.pending[1..], c.partition)[0].offset == c.offset + 1))
  {
    hide AccountedFor, Rebalanced, SinkGenuine, HandledAccounted, Routed, Membership, Covered, Slice;
    assert MemberSafe(cfg, s, s.members[id]);
    var w := s.members[id].work;
    var c := w.pending[0];
    SlicePop(w.pending, c.partition);
    var records := Slice(w.pending, c.partition);
    assert records[0] == c;
    if c.partition !in w.seekBack {
      assert Consecutive(s.logs, cfg.topic, c.partition, records, Heights(s)[c.partition]);
      var st := Stretch(s.logs, cfg.topic, c.partition, c.offset, c.offset + |records|);
      assert st[0] == ConsumedRecord(cfg.topic, c.partition, c.offset, s.logs[c.partition][c.offset]);
      var rest := Slice(w.pending[1..], c.partition);
      assert rest == records[1..];
      assert rest == Stretch(s.logs, cfg.topic, c.partition, c.offset + 1, c.offset + 1 + |rest|);
      if rest != [] { assert rest[0].offset == c.offset + 1; }
    }
  }

  /** What it means that a record is done: its signature has been seen, or it was copied with a reason. */
  lemma DoneMeans(cfg: Config, w: Work, outcome: Outcome)
    requires w.pending != []
    ensures var a := HandleNext(cfg, w, outcome);
      var record := w.pending[0].record;
      && (a.fate.Processed? ==> Genuine(cfg, record).Some? && Genuine(cfg, record).value.signature in a.work.local.seen)
      && (a.fate.Quarantined? ==> exists reason :: a.fate.letter == record.DeadLetteredFrom(cfg.topic, reason))
  {
  }

  /** A record that is done is accounted for: its signature reached the sink, or its copy the dead-letter topic. */
  lemma DoneIsAccounted(cfg: Config, s: System, id: string, outcome: Outcome)
    requires Inv(cfg, s) && Enabled(s, Handle(id, outcome))
    ensures var a := HandleNext(cfg, s.members[id].work, outcome);
      var s' := Apply(cfg, s, Handle(id, outcome));
      a.fate.Processed? || a.fate.Quarantined? ==>
        AccountedFor(cfg, s'.sink, s'.dead, s.members[id].work.pending[0].record)
  {
    hide Rebalanced, HandledAccounted, Routed, Membership, Covered, Slice, BatchSafe, HandleNext, Genuine;
    assert MemberSafe(cfg, s, s.members[id]);
    var w := s.members[id].work;
    var a := HandleNext(cfg, w, outcome);
    DoneMeans(cfg, w, outcome);
    var s' := Apply(cfg, s, Handle(id, outcome));
    if a.fate.Quarantined? {
      var p := PartitionFor(cfg.hash, a.fate.letter.key, |s.dead|);
      assert a.fate.letter in s'.dead[p];
      assert InTopic(s'.dead, a.fate.letter);
    }
  }

  /** What a record's handling adds to the instance's set of seen signatures is the record's own. */
  lemma NewlySeen(cfg: Config, w: Work, outcome: Outcome, sig: string)
    requires w.pending != []
    requires sig in HandleNext(cfg, w, outcome).work.local.seen && sig !in w.local.seen
    ensures w.pending[0].partition !in w.seekBack
    ensures Genuine(cfg, w.pending[0].record) == Some(Transaction(sig))
  {
  }

  lemma LaterLimit(logs: TopicLogs, topic: string, p: nat, records: seq<ConsumedRecord>, a: nat, b: nat)
    requires p < |logs| && a <= b && Consecutive(logs, topic, p, records, a)
    ensures Consecutive(logs, topic, p, records, b)
  {
  }

  lemma HandledBatchSafe(cfg: Config, s: System, id: string, outcome: Outcome)
    requires Inv(cfg, s) && Enabled(s, Handle(id, outcome))
    ensures var s' := Apply(cfg, s, Handle(id, outcome));
      BatchSafe(s'.logs, cfg.topic, Heights(s'), s'.members[id].work)
  {
    hide AccountedFor, Rebalanced, SinkGenuine, HandledAccounted, Routed, Membership, Covered, Slice, HandleRecord, Consecutive;
    assert MemberSafe(cfg, s, s.members[id]);
    NextInOrder(cfg, s, id);
    var w := s.members[id].work;
    var c := w.pending[0];
    var s' := Apply(cfg, s, Handle(id, outcome));
    var w' := s'.members[id].work;
    forall p: nat ensures p != c.partition ==> Slice(w'.pending, p) == Slice(w.pending, p) { SlicePop(w.pending, p); }
    forall p: nat | p < |s.logs| && p !in w'.seekBack
      ensures Consecutive(s.logs, cfg.topic, p, Slice(w'.pending, p), Heights(s')[p])
    {
      if p == c.partition {
        LaterLimit(s.logs, cfg.topic, p, Slice(w'.pending, p), c.offset + 1, Heights(s')[p]);
      }
    }
  }

  /** The partition's cover survives the handling of a record, or is no longer needed. */
  lemma HandledStaysCovered(cfg: Config, s: System, id: string, outcome: Outcome, p: nat, o: string)
    requires Inv(cfg, s) && Enabled(s, Handle(id, outcome))
    requires p < |s.logs| && CoveredBy(s, p, o)
    requires s.group.position[p] > Heights(Apply(cfg, s, Handle(id, outcome)))[p]
    ensures CoveredBy(Apply(cfg, s, Handle(id, outcome)), p, o)
  {
    hide AccountedFor, Rebalanced, SinkGenuine, HandledAccounted, Routed, Membership, Covered, Slice, HandleRecord;
    if o == id {
      NextInOrder(cfg, s, id);
      assert MemberSafe(cfg, s, s.members[id]);
      var w := s.members[id].work;
      SlicePop(w.pending, p);
      if p == w.pending[0].partition && p !in w.seekBack {
        assert Consecutive(s.logs, cfg.topic, p, Slice(w.pending, p), Heights(s)[p]);
      }
    }
  }

  /** Handling a record for good raises its partition's height at most to just above it; nothing else moves. */
  lemma HandledHeights(cfg: Config, s: System, id: string, outcome: Outcome)
    requires Inv(cfg, s) && Enabled(s, Handle(id, outcome))
    ensures var a := HandleNext(cfg, s.members[id].work, outcome);
      var c := s.members[id].work.pending[0];
      var s' := Apply(cfg, s, Handle(id, outcome));
      && Sizes(s') && Gapless(s') && c.partition < |s.logs|
      && (forall p: nat :: p < |s.logs| && p != c.partition ==> Heights(s')[p] == Heights(s)[p])
      && var h := Heights(s)[c.partition];
      && Heights(s')[c.partition] ==
        if (a.fate.Processed? || a.fate.Quarantined?) && c.offset == h then h + 1 else h
  {
    hide AccountedFor, Rebalanced, OwnerOf, Slice, HandleRecord, BatchSafe, MemberSafe, Covered, SinkGenuine, Routed, HandledAccounted, Membership, Height;
    NextInOrder(cfg, s, id);
    var c := s.members[id].work.pending[0];
    if c.partition !in s.members[id].work.seekBack {
      HeightAfter(s.handled[c.partition], c.offset);
    }
  }

  lemma ProducedAt(cfg: Config, logs: TopicLogs, sig: string, p: nat, o: nat)
    requires p < |logs| && o < |logs[p]| && Genuine(cfg, logs[p][o]) == Some(Transaction(sig))
    ensures Produced(cfg, logs, sig)
  {
  }

  lemma HandleGrows(cfg: Config, s: System, id: string, outcome: Outcome)
    requires Inv(cfg, s) && Enabled(s, Handle(id, outcome))
    ensures Grows(s, Apply(cfg, s, Handle(id, outcome)))
  {
    hide AccountedFor, Rebalanced, OwnerOf, Slice, HandleRecord, BatchSafe, MemberSafe, Covered, SinkGenuine, Routed, HandledAccounted, Membership;
    var a := HandleNext(cfg, s.members[id].work, outcome);
    if a.fate.Quarantined? { AppendGrows(s.dead, cfg.hash, a.fate.letter); }
  }

  lemma HandleKeeps(cfg: Config, s: System, id: string, outcome: Outcome)
    requires Inv(cfg, s) && Enabled(s, Handle(id, outcome))
    ensures Inv(cfg, Apply(cfg, s, Handle(id, outcome)))
  {
    hide AccountedFor, Rebalanced, OwnerOf, Slice, HandleRecord, BatchSafe, Covers, Produced;
    var s' := Apply(cfg, s, Handle(id, outcome));
    var w := s.members[id].work;
    var c := w.pending[0];
    NextInOrder(cfg, s, id);
    HandledBatchSafe(cfg, s, id, outcome);
    DoneIsAccounted(cfg, s, id, outcome);
    HandleGrows(cfg, s, id, outcome);
    HandledHeights(cfg, s, id, outcome);
    assert MemberSafe(cfg, s, s.members[id]);
    forall o | o in s'.members ensures MemberSafe(cfg, s', s'.members[o]) {
      if o != id { MemberStaysSafe(cfg, s, s', s.members[o]); }
    }
    forall p: nat, o: nat | p < |s'.logs| && o < Heights(s')[p] && o < |s'.logs[p]|
      ensures AccountedFor(cfg, s'.sink, s'.dead, s'.logs[p][o])
    {
      if o < Heights(s)[p] { AccountStays(cfg, s, s', s.logs[p][o]); }
    }
    forall sig | sig in s'.sink ensures Produced(cfg, s'.logs, sig) {
      if sig !in s.sink {
        NewlySeen(cfg, w, outcome, sig);
        ProducedAt(cfg, s.logs, sig, c.partition, c.offset);
      }
    }
    forall p: nat | p < |s'.logs| && s'.group.position[p] > Heights(s')[p] ensures exists o :: CoveredBy(s', p, o) {
      var o :| CoveredBy(s, p, o);
      HandledStaysCovered(cfg, s, id, outcome, p, o);
    }
  }

  // ---- whole runs ----

  lemma StepKeeps(cfg: Config, s: System, step: Step)
    requires Inv(cfg, s) && Allowed(cfg, s, step)
    ensures Inv(cfg, Apply(cfg, s, step))
  {
    hide Inv;
    match step
    case Produce(record) => ProduceKeeps(cfg, s, record);
    case Join(id) => JoinKeeps(cfg, s, id);
    case Leave(id) => LeaveKeeps(cfg, s, id);
    case Crash(id) => CrashKeeps(cfg, s, id);
    case Poll(id, max) => PollKeeps(cfg, s, id, max);
    case Handle(id, outcome) => HandleKeeps(cfg, s, id, outcome);
    case Commit(id) => CommitKeeps(cfg, s, id);
    case Seek(id) => SeekKeeps(cfg, s, id);
  }

  /** A run from one state to another in which every step is enabled. */
  ghost predicate Run(cfg: Config, s: System, steps: seq<Step>, t: System)
    decreases |steps|
  {
    if steps == [] then s == t
    else Sizes(s) && Enabled(s, steps[0]) && Run(cfg, Apply(cfg, s, steps[0]), steps[1..], t)
  }

  /** A run whose joins, leaves and crashes also meet the guard. */
  ghost predicate GuardedRun(cfg: Config, s: System, steps: seq<Step>, t: System)
    decreases |steps|
  {
    if steps == [] then s == t
    else Allowed(cfg, s, steps[0]) && GuardedRun(cfg, Apply(cfg, s, steps[0]), steps[1..], t)
  }

  lemma {:induction false} RunKeeps(cfg: Config, s: System, steps: seq<Step>, t: System)
    requires Inv(cfg, s) && GuardedRun(cfg, s, steps, t)
    ensures Inv(cfg, t)
    decreases |steps|
  {
    hide Inv, Apply, SafeMove, Enabled;
    if steps != [] {
      StepKeeps(cfg, s, steps[0]);
      RunKeeps(cfg, Apply(cfg, s, steps[0]), steps[1..], t);
    }
  }

  /** An empty bus: topics created, nothing produced, nobody joined. */
  function Start(partitions: nat, deadPartitions: nat): System
    requires partitions >= 1 && deadPartitions >= 1
  {
    System(seq(partitions, _ => []), seq(deadPartitions, _ => []), EmptyGroup(partitions), map[], {}, seq(partitions, _ => {}))
  }

  lemma StartIsSafe(cfg: Config, partitions: nat, deadPartitions: nat)
    requires partitions >= 1 && deadPartitions >= 1
    ensures Inv(cfg, Start(partitions, deadPartitions))
  {
    var s := Start(partitions, deadPartitions);
    HeightIs(0);
    assert Below(0) == {};
    assert s.group.assignment == Rebalanced({}, partitions);
  }

  /** No record below a committed offset is lost. */
  ghost predicate NothingLost(cfg: Config, s: System) {
    Sizes(s) && forall p: nat, o: nat :: p < |s.logs| && o < s.group.committed[p] ==>
      o < |s.logs[p]| && AccountedFor(cfg, s.sink, s.dead, s.logs[p][o])
  }

  lemma InvLosesNothing(cfg: Config, s: System)
    requires Inv(cfg, s)
    ensures NothingLost(cfg, s)
  {
    hide AccountedFor, Membership, Covered, MemberSafe, SinkGenuine, Routed;
  }

  /**
   At least once, over every run of the guarded system: whatever was produced, joined, left, polled,
   retried, dead-lettered and crashed, every record below a committed offset has its signature in
   the sink or a copy in the dead-letter topic.
   */
  lemma AtLeastOnce(cfg: Config, partitions: nat, deadPartitions: nat, steps: seq<Step>, t: System)
    requires partitions >= 1 && deadPartitions >= 1
    requires GuardedRun(cfg, Start(partitions, deadPartitions), steps, t)
    ensures NothingLost(cfg, t)
  {
    hide GuardedRun;
    StartIsSafe(cfg, partitions, deadPartitions);
    RunKeeps(cfg, Start(partitions, deadPartitions), steps, t);
    InvLosesNothing(cfg, t);
  }

  // ---- what the sink holds, in any run at all ----

  /** Every record in hand is the one the log has at its place. */
  ghost predicate OnFile(logs: TopicLogs, records: seq<ConsumedRecord>) {
    forall c :: c in records ==> c.partition < |logs| && c.offset < |logs[c.partition]| && c.record == logs[c.partition][c.offset]
  }

  ghost predicate InHandOnFile(s: System) {
    forall id :: id in s.members && s.members[id].Working? ==> OnFile(s.logs, s.members[id].work.pending)
  }

  lemma {:induction false} UnreadIsOnFile(logs: TopicLogs, topic: string, position: seq<nat>, owned: seq<nat>)
    requires forall i :: 0 <= i < |owned| ==> owned[i] < |position|
    ensures OnFile(logs, Unread(logs, topic, position, owned))
  {
    if owned != [] { UnreadIsOnFile(logs, topic, position, owned[..|owned| - 1]); }
  }

  lemma FewerOnFile(logs: TopicLogs, a: seq<ConsumedRecord>, b: seq<ConsumedRecord>)
    requires OnFile(logs, a) && b <= a
    ensures OnFile(logs, b)
  {
  }

  lemma DeliveryIsOnFile(s: System, topic: string, id: string, max: int)
    requires forall p :: p in OwnedBy(s.group.assignment, id) ==> p < |s.group.position|
    ensures OnFile(s.logs, Delivery(s.logs, topic, s.group, id, max))
  {
    hide Unread, SortedNats, OnFile;
    var owned := SortedNats(OwnedBy(s.group.assignment, id));
    assert forall i :: 0 <= i < |owned| ==> owned[i] in owned;
    var all := Unread(s.logs, topic, s.group.position, owned);
    UnreadIsOnFile(s.logs, topic, s.group.position, owned);
    FewerOnFile(s.logs, all, Take(all, max));
  }

  lemma StillOnFile(logs: TopicLogs, logs': TopicLogs, records: seq<ConsumedRecord>)
    requires OnFile(logs, records) && LogsGrow(logs, logs')
    ensures OnFile(logs', records)
  {
    forall c | c in records ensures c.partition < |logs'| && c.offset < |logs'[c.partition]| && c.record == logs'[c.partition][c.offset] {
      assert logs[c.partition] <= logs'[c.partition];
    }
  }

  lemma ProduceKeepsSink(cfg: Config, s: System, record: EventRecord)
    requires Sizes(s) && InHandOnFile(s) && SinkGenuine(cfg, s)
    ensures var s' := Apply(cfg, s, Produce(record)); InHandOnFile(s') && SinkGenuine(cfg, s')
  {
    hide OnFile;
    var s' := Apply(cfg, s, Produce(record));
    AppendGrows(s.logs, cfg.hash, record);
    forall id | id in s'.members && s'.members[id].Working? ensures OnFile(s'.logs, s'.members[id].work.pending) {
      StillOnFile(s.logs, s'.logs, s.members[id].work.pending);
    }
    forall sig | sig in s'.sink ensures Produced(cfg, s'.logs, sig) {
      assert Produced(cfg, s.logs, sig);
      var p: nat, o: nat :| p < |s.logs| && o < |s.logs[p]| && Genuine(cfg, s.logs[p][o]) == Some(Transaction(sig));
      assert s.logs[p] <= s'.logs[p];
      ProducedAt(cfg, s'.logs, sig, p, o);
    }
  }

  lemma HandleKeepsSink(cfg: Config, s: System, id: string, outcome: Outcome)
    requires Sizes(s) && InHandOnFile(s) && SinkGenuine(cfg, s) && Enabled(s, Handle(id, outcome))
    ensures var s' := Apply(cfg, s, Handle(id, outcome)); InHandOnFile(s') && SinkGenuine(cfg, s')
  {
    hide HandleRecord, Produced;
    var s' := Apply(cfg, s, Handle(id, outcome));
    var w := s.members[id].work;
    var c := w.pending[0];
    assert c in w.pending && s'.members[id].work.pending == w.pending[1..];
    forall sig | sig in s'.sink ensures Produced(cfg, s'.logs, sig) {
      if sig !in s.sink {
        NewlySeen(cfg, w, outcome, sig);
        ProducedAt(cfg, s.logs, sig, c.partition, c.offset);
      }
    }
  }

  lemma StepKeepsSink(cfg: Config, s: System, step: Step)
    requires Sizes(s) && InHandOnFile(s) && SinkGenuine(cfg, s) && Enabled(s, step)
    ensures var s' := Apply(cfg, s, step); InHandOnFile(s') && SinkGenuine(cfg, s')
  {
    hide Delivery, Rebalanced, OnFile, Produced;
    match step
    case Produce(record) => ProduceKeepsSink(cfg, s, record);
    case Poll(id, max) => DeliveryIsOnFile(s, cfg.topic, id, max);
    case Handle(id, outcome) => HandleKeepsSink(cfg, s, id, outcome);
    case _ =>
  }

  lemma {:induction false} RunKeepsSink(cfg: Config, s: System, steps: seq<Step>, t: System)
    requires Sizes(s) && InHandOnFile(s) && SinkGenuine(cfg, s) && Run(cfg, s, steps, t)
    ensures InHandOnFile(t) && SinkGenuine(cfg, t)
    decreases |steps|
  {
    hide InHandOnFile, SinkGenuine, Apply, Enabled;
    if steps != [] {
      StepKeepsSink(cfg, s, steps[0]);
      if |steps| > 1 { RunKeepsSink(cfg, Apply(cfg, s, steps[0]), steps[1..], t); }
    }
  }

  /** In any run, guarded or not, the sink holds only signatures of produced records that verify and decode. */
  lemma SinkHoldsOnlyGenuine(cfg: Config, partitions: nat, deadPartitions: nat, steps: seq<Step>, t: System, sig: string)
    requires partitions >= 1 && deadPartitions >= 1
    requires Run(cfg, Start(partitions, deadPartitions), steps, t)
    requires sig in t.sink
    ensures exists p: nat, o: nat :: p < |t.logs| && o < |t.logs[p]| && Genuine(cfg, t.logs[p][o]) == Some(Transaction(sig))
  {
    hide Run;
    RunKeepsSink(cfg, Start(partitions, deadPartitions), steps, t);
    assert Produced(cfg, t.logs, sig);
  }

  /**
   Order. The offsets handled are always a prefix, and when a record is about to be handled in a
   guarded run, every earlier offset of its partition has already been handled, and the record there
   is accounted for. Records with the same key share a partition, so of two of them the later is
   never handed over while the earlier is unhandled.
   */
  lemma EarlierHandledFirst(cfg: Config, partitions: nat, deadPartitions: nat, steps: seq<Step>, t: System,
                            id: string, p: nat, earlier: nat, later: nat, q: nat)
    requires partitions >= 1 && deadPartitions >= 1
    requires GuardedRun(cfg, Start(partitions, deadPartitions), steps, t)
    requires id in t.members && t.members[id].Working? && t.members[id].work.pending != []
    requires var c := t.members[id].work.pending[0];
      c.partition == p && c.offset == later && p !in t.members[id].work.seekBack
    requires q < |t.logs| && earlier < |t.logs[q]| && p < |t.logs| && later < |t.logs[p]|
    requires t.logs[q][earlier].key == t.logs[p][later].key && (q == p ==> earlier < later)
    ensures q == p && AccountedFor(cfg, t.sink, t.dead, t.logs[q][earlier])
    ensures p < |t.handled| && Below(later) <= t.handled[p] == Below(Height(t.handled[p]))
  {
    hide GuardedRun, AccountedFor;
    StartIsSafe(cfg, partitions, deadPartitions);
    RunKeeps(cfg, Start(partitions, deadPartitions), steps, t);
    NextInOrder(cfg, t, id);
  }
}
