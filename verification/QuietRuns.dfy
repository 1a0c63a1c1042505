/**
 Runs in which members join, leave and crash only while every other member is between cycles. In
 these the group is tidy: positions and committed offsets meet between cycles, and each instance's
 retry counters sit at the committed offset and stay within their bound.
 */
module QuietRuns {
  import opened Prelude
  import opened EventTypes
  import opened BrokerModel
  import opened PollModel
  import opened ConsumerModel
  import opened CycleLaws
  import opened DrainLaws
  import opened Protocol

  ghost predicate OthersRest(s: System, id: string) {
    forall o :: o in s.members && o != id ==> s.members[o].Resting?
  }

  /** No member but the one that joins, leaves or crashes is inside a batch. */
  ghost predicate Quiet(s: System, step: Step) {
    match step
    case Join(id) => OthersRest(s, id)
    case Leave(id) => OthersRest(s, id)
    case Crash(id) => OthersRest(s, id)
    case _ => true
  }

  /** What a member of the group holds of its partitions. */
  ghost predicate Tidy(cfg: Config, s: System, id: string)
    requires Sizes(s) && id in s.members
  {
    var owned := OwnedBy(s.group.assignment, id);
    match s.members[id]
    case Resting(_) => SettledOn(s.logs, s.group, owned)
    case Working(w) => Aligned(s.logs, cfg.topic, owned, s.group.committed, s.group.position, w)
    case Rewinding(_, seekBack) =>
      && seekBack <= owned
      && (forall p :: p in owned ==> p < |s.logs| && s.group.committed[p] <= |s.logs[p]|)
      && (forall p :: p in owned && p !in seekBack ==> s.group.position[p] == s.group.committed[p])
      && (forall p :: p in seekBack ==> s.group.committed[p] < s.group.position[p])
  }

  /** Where each partition's next unhandled record is, as this member sees it. */
  function MemberCursors(s: System, m: Member): seq<nat> {
    match m
    case Working(w) => Cursors(w, s.group.committed)
    case _ => s.group.committed
  }

  /**
   Retry counters lie between one and the limit and none is beyond the cursor of its partition; an
   offset has failed at most limit + 1 times, and at the cursor exactly as often as its counter says.
   */
  ghost predicate Tallied(cfg: Config, l: Local, cursors: seq<nat>) {
    && CountersBounded(cfg, l)
    && (forall k :: k in l.retries ==> k.0 < |cursors| && k.1 <= cursors[k.0])
    && (forall k :: k in l.failures ==> k.0 < |cursors| && l.failures[k] <= Limit(cfg) + 1)
    && (forall k: (nat, nat) :: k.0 < |cursors| && k.1 >= cursors[k.0] ==> Count(l.failures, k) == Count(l.retries, k))
  }

  /** The instance's processor has returned normally once for each signature it has seen, and for no other. */
  ghost predicate OncePerSignature(l: Local) {
    NoDuplicates(l.returned) && forall sig :: sig in l.returned <==> sig in l.seen
  }

  ghost predicate QuietInv(cfg: Config, s: System) {
    && Inv(cfg, s)
    && (forall id :: id in s.members ==> Tidy(cfg, s, id) && Tallied(cfg, s.members[id].Own(), MemberCursors(s, s.members[id])))
    && (s.group.assignment == map[] ==> s.group.position == s.group.committed)
  }

  // ---- quiet steps meet the guard of the safety theorem ----

  lemma QuietIsAllowed(cfg: Config, s: System, step: Step)
    requires QuietInv(cfg, s) && Enabled(s, step) && Quiet(s, step)
    ensures Allowed(cfg, s, step)
  {
    hide Rebalanced, OwnerOf, Covered, SinkGenuine, Routed, HandledAccounted, MemberSafe, Aligned, Tallied;
    if Rebalances(step) {
      var g' := Apply(cfg, s, step).group;
      forall p: nat | p < |s.logs| && ChangesHands(s.group, g', p) ensures s.group.position[p] <= Heights(s)[p] {
        var o :| o in s.group.assignment && o in g'.assignment && p in s.group.assignment[o] && p !in g'.assignment[o];
        assert Tidy(cfg, s, o);
      }
    }
  }

  /** In a dealt assignment two members share no partition. */
  lemma NoShare(s: System, a: string, b: string, p: nat)
    requires Sizes(s) && Membership(s)
    requires p in OwnedBy(s.group.assignment, a) && p in OwnedBy(s.group.assignment, b)
    ensures a == b
  {
    OwnerIsUnique(s.group.assignment, |s.logs|, a, p);
    OwnerIsUnique(s.group.assignment, |s.logs|, b, p);
  }

  /** The plainer parts of the invariant. */
  lemma OnlySizes(cfg: Config, s: System)
    requires Inv(cfg, s)
    ensures Sizes(s) && Membership(s)
    ensures forall p: nat :: p < |s.logs| ==> s.group.committed[p] <= |s.logs[p]| && s.group.position[p] <= |s.logs[p]|
  {
  }

  // ---- preservation ----

  /** In a quiet state a partition that is unowned, or owned by a resting member, is settled. */
  lemma RestingOwnerSettles(cfg: Config, s: System, p: nat)
    requires QuietInv(cfg, s) && p < |s.logs|
    requires forall o :: o in s.group.assignment && p in s.group.assignment[o] ==> s.members[o].Resting?
    ensures s.group.position[p] == s.group.committed[p]
  {
    hide OwnerOf, Covered, SinkGenuine, Routed, HandledAccounted, MemberSafe, Aligned, Tallied, Gapless, Bounds;
    if s.group.assignment.Keys == {} {
      assert s.group.assignment == map[];
    } else {
      var o := OwnerOf(s.group.assignment.Keys, p);
      OwnerIsUnique(s.group.assignment, |s.logs|, o, p);
      assert Tidy(cfg, s, o);
    }
  }

  lemma DealStaysTidy(cfg: Config, s: System, s': System, orphaned: set<nat>)
    requires QuietInv(cfg, s) && Inv(cfg, s')
    requires s'.logs == s.logs && s'.group.committed == s.group.committed && s'.group.position == Rewound(s.group, orphaned)
    requires forall o, p :: o in s.group.assignment && p in s.group.assignment[o] && p !in orphaned ==> s.members[o].Resting?
    requires forall o :: o in s'.members ==> s'.members[o].Resting?
    requires forall o :: o in s'.members ==>
      if o in s.members then s'.members[o] == s.members[o] else s'.members[o] == Resting(NewLocal())
    ensures QuietInv(cfg, s')
  {
    hide OwnerOf, Rebalanced, Inv, Aligned, Below;
    OnlySizes(cfg, s);
    OnlySizes(cfg, s');
    forall p: nat | p < |s.logs| ensures s'.group.position[p] == s'.group.committed[p] {
      if p !in orphaned { RestingOwnerSettles(cfg, s, p); }
    }
    assert s'.group.position == s'.group.committed;
    forall o | o in s'.members
      ensures Tidy(cfg, s', o) && Tallied(cfg, s'.members[o].Own(), MemberCursors(s', s'.members[o]))
    {
      if o in s'.group.assignment {
        forall p | p in s'.group.assignment[o] ensures p < |s'.logs| { OwnerIsUnique(s'.group.assignment, |s'.logs|, o, p); }
      }
    }
  }

  lemma LongerLogsStayAligned(logs: TopicLogs, logs': TopicLogs, topic: string, owned: set<nat>, base: seq<nat>, position: seq<nat>, w: Work)
    requires Aligned(logs, topic, owned, base, position, w) && LogsGrow(logs, logs')
    ensures Aligned(logs', topic, owned, base, position, w)
  {
    hide Slice;
    forall p | p in owned ensures base[p] <= position[p] <= |logs'[p]|
      && (p !in w.seekBack ==> Slice(w.pending, p) == Stretch(logs', topic, p, CursorAt(w, base, p), position[p]))
    {
      assert logs[p] <= logs'[p];
    }
  }

  lemma ProduceStaysTidy(cfg: Config, s: System, record: EventRecord)
    requires QuietInv(cfg, s) && Inv(cfg, Apply(cfg, s, Produce(record)))
    ensures QuietInv(cfg, Apply(cfg, s, Produce(record)))
  {
    hide OwnerOf, Covered, SinkGenuine, Routed, HandledAccounted, MemberSafe, Slice, Tallied, Rebalanced;
    var s' := Apply(cfg, s, Produce(record));
    AppendGrows(s.logs, cfg.hash, record);
    forall o | o in s'.members ensures Tidy(cfg, s', o) {
      assert Tidy(cfg, s, o);
      if s.members[o].Working? {
        LongerLogsStayAligned(s.logs, s'.logs, cfg.topic, OwnedBy(s.group.assignment, o), s.group.committed, s.group.position, s.members[o].work);
      }
    }
  }

  /** A member is as tidy as before when neither its state nor its partitions' offsets have changed. */
  lemma UntouchedStaysTidy(cfg: Config, s: System, s': System, o: string)
    requires Sizes(s) && Sizes(s') && o in s.members && o in s'.members && s'.members[o] == s.members[o]
    requires s'.logs == s.logs && s'.group.assignment == s.group.assignment
    requires forall p: nat :: p < |s.logs| ==> s.group.committed[p] <= s'.group.committed[p]
    requires forall p :: p in OwnedBy(s.group.assignment, o) && p < |s.logs| ==>
      s'.group.committed[p] == s.group.committed[p] && s'.group.position[p] == s.group.position[p]
    requires Tidy(cfg, s, o) && Tallied(cfg, s.members[o].Own(), MemberCursors(s, s.members[o]))
    ensures Tidy(cfg, s', o) && Tallied(cfg, s'.members[o].Own(), MemberCursors(s', s'.members[o]))
  {
    hide Slice;
    var a, b := MemberCursors(s, s.members[o]), MemberCursors(s', s.members[o]);
    assert |a| == |b| && forall p: nat :: p < |a| ==> a[p] <= b[p];
  }

  lemma PollerIsTidy(cfg: Config, s: System, id: string, max: int)
    requires QuietInv(cfg, s) && Enabled(s, Poll(id, max))
    ensures var s' := Apply(cfg, s, Poll(id, max));
      && Tidy(cfg, s', id)
      && s'.members[id].Own() == s.members[id].Own() && MemberCursors(s', s'.members[id]) == s.group.committed
  {
    hide OwnerOf, Inv, Delivery, Aligned, Slice, Rebalanced, Tallied;
    assert Sizes(s) by { assert Inv(cfg, s); OnlySizes(cfg, s); }
    var batch := Delivery(s.logs, cfg.topic, s.group, id, max);
    var l := s.members[id].local;
    assert Tidy(cfg, s, id);
    PollAligns(s.logs, cfg.topic, s.group, id, max, l, 0);
    if batch == [] {
      forall p: nat ensures Slice(batch, p) == [] { SliceUniform(batch, p, p); }
    } else {
      NothingYetCommitted(NewCycle(l, batch, 0).work, s.group.committed);
    }
  }

  lemma RestingCursors(s: System, m: Member)
    requires m.Resting?
    ensures MemberCursors(s, m) == s.group.committed
  {
  }

  lemma PollStaysTidy(cfg: Config, s: System, id: string, max: int)
    requires QuietInv(cfg, s) && Enabled(s, Poll(id, max)) && Inv(cfg, Apply(cfg, s, Poll(id, max)))
    ensures QuietInv(cfg, Apply(cfg, s, Poll(id, max)))
  {
    hide OwnerOf, Inv, Delivery, Tidy, Tallied, Slice, Rebalanced, MemberCursors;
    OnlySizes(cfg, s);
    var s' := Apply(cfg, s, Poll(id, max));
    OnlySizes(cfg, s');
    var batch := Delivery(s.logs, cfg.topic, s.group, id, max);
    forall p: nat ensures p !in OwnedBy(s.group.assignment, id) ==> Slice(batch, p) == [] {
      DeliverySlice(s.logs, cfg.topic, s.group, id, max, p);
    }
    PollerIsTidy(cfg, s, id, max);
    assert MemberCursors(s, s.members[id]) == s.group.committed by { RestingCursors(s, s.members[id]); }
    forall o | o in s'.members
      ensures Tidy(cfg, s', o) && Tallied(cfg, s'.members[o].Own(), MemberCursors(s', s'.members[o]))
    {
      if o != id {
        forall p | p in OwnedBy(s.group.assignment, o) ensures p !in OwnedBy(s.group.assignment, id) {
          if p in OwnedBy(s.group.assignment, id) { NoShare(s, o, id, p); }
        }
        UntouchedStaysTidy(cfg, s, s', o);
      }
    }
  }

  /** The committing member's partitions are committed to its cursors, and its counters stay where they were. */
  lemma CommitterIsTidy(cfg: Config, s: System, id: string)
    requires Sizes(s) && Enabled(s, Commit(id)) && Tidy(cfg, s, id)
    ensures var s' := Apply(cfg, s, Commit(id));
      && Sizes(s') && Tidy(cfg, s', id) && s'.group.committed == MemberCursors(s, s.members[id])
      && (forall p: nat :: p < |s.logs| ==> s.group.committed[p] <= s'.group.committed[p])
      && (forall p: nat :: p < |s.logs| && p !in OwnedBy(s.group.assignment, id) ==> s'.group.committed[p] == s.group.committed[p])
  {
    hide OwnerOf, Rebalanced;
    var w := s.members[id].work;
    assert Apply(cfg, s, Commit(id)).group.committed == Cursors(w, s.group.committed);
    assert forall p: nat :: Slice(w.pending, p) == [];
  }

  lemma CommitStaysTidy(cfg: Config, s: System, id: string)
    requires QuietInv(cfg, s) && Enabled(s, Commit(id)) && Inv(cfg, Apply(cfg, s, Commit(id)))
    ensures QuietInv(cfg, Apply(cfg, s, Commit(id)))
  {
    hide OwnerOf, Inv, Rebalanced, Tallied, Tidy, Slice, Cursors;
    OnlySizes(cfg, s);
    CommitterIsTidy(cfg, s, id);
    var s' := Apply(cfg, s, Commit(id));
    OnlySizes(cfg, s');
    forall o | o in s'.members
      ensures Tidy(cfg, s', o) && Tallied(cfg, s'.members[o].Own(), MemberCursors(s', s'.members[o]))
    {
      if o != id {
        forall p | p in OwnedBy(s.group.assignment, o) ensures p !in OwnedBy(s.group.assignment, id) {
          if p in OwnedBy(s.group.assignment, id) { NoShare(s, o, id, p); }
        }
        UntouchedStaysTidy(cfg, s, s', o);
      }
    }
  }

  lemma SeekStaysTidy(cfg: Config, s: System, id: string)
    requires QuietInv(cfg, s) && Enabled(s, Seek(id)) && Inv(cfg, Apply(cfg, s, Seek(id)))
    ensures QuietInv(cfg, Apply(cfg, s, Seek(id)))
  {
    hide OwnerOf, Covered, SinkGenuine, Routed, HandledAccounted, MemberSafe, Rebalanced, Tallied;
    var s' := Apply(cfg, s, Seek(id));
    assert Tidy(cfg, s, id);
    forall o | o in s'.members
      ensures Tidy(cfg, s', o) && Tallied(cfg, s'.members[o].Own(), MemberCursors(s', s'.members[o]))
    {
      if o != id {
        forall p | p in OwnedBy(s.group.assignment, o) ensures p !in OwnedBy(s.group.assignment, id) {
          if p in OwnedBy(s.group.assignment, id) { NoShare(s, o, id, p); }
        }
        UntouchedStaysTidy(cfg, s, s', o);
      }
    }
  }

  /** Handling a record changes no other offset's counters, and keeps its own in step until it is done. */
  lemma RecordTallies(cfg: Config, l: Local, c: ConsumedRecord, outcome: Outcome)
    requires CountersBounded(cfg, l) && (forall k :: k in l.failures ==> l.failures[k] <= Limit(cfg) + 1)
    requires Count(l.failures, (c.partition, c.offset)) == Count(l.retries, (c.partition, c.offset))
    ensures var h := HandleRecord(cfg, l, c, outcome);
      var own := (c.partition, c.offset);
      && CountersBounded(cfg, h.local) && (forall k :: k in h.local.failures ==> h.local.failures[k] <= Limit(cfg) + 1)
      && h.local.retries.Keys <= l.retries.Keys + {own} && h.local.failures.Keys <= l.failures.Keys + {own}
      && (!h.done ==> Count(h.local.failures, own) == Count(h.local.retries, own))
      && (forall k :: k != own ==>
           Count(h.local.failures, k) == Count(l.failures, k) && Count(h.local.retries, k) == Count(l.retries, k))
  {
  }

  /** A handled record moves at most its own counter and its own partition's cursor. */
  lemma HandleStaysTallied(cfg: Config, logs: TopicLogs, owned: set<nat>, base: seq<nat>, position: seq<nat>, w: Work, outcome: Outcome)
    requires Aligned(logs, cfg.topic, owned, base, position, w) && w.pending != []
    requires Tallied(cfg, w.local, Cursors(w, base))
    ensures var w' := HandleNext(cfg, w, outcome).work; Tallied(cfg, w'.local, Cursors(w', base))
  {
    hide Slice, HandleRecord, Stretch;
    NextIsAtCursor(logs, cfg.topic, owned, base, position, w);
    HandleMovesCursor(cfg, logs, owned, base, position, w, outcome);
    var c := w.pending[0];
    if c.partition !in w.seekBack {
      RecordTallies(cfg, w.local, c, outcome);
    }
  }

  lemma HandleStaysTidy(cfg: Config, s: System, id: string, outcome: Outcome)
    requires QuietInv(cfg, s) && Enabled(s, Handle(id, outcome)) && Inv(cfg, Apply(cfg, s, Handle(id, outcome)))
    ensures QuietInv(cfg, Apply(cfg, s, Handle(id, outcome)))
  {
    hide OwnerOf, Covered, SinkGenuine, Routed, HandledAccounted, MemberSafe, Rebalanced, Tallied, Aligned, HandleNext, Slice;
    var s' := Apply(cfg, s, Handle(id, outcome));
    var w := s.members[id].work;
    var owned := OwnedBy(s.group.assignment, id);
    assert Tidy(cfg, s, id);
    HandleKeepsAligned(cfg, s.logs, owned, s.group.committed, s.group.position, w, outcome);
    HandleStaysTallied(cfg, s.logs, owned, s.group.committed, s.group.position, w, outcome);
    forall o | o in s'.members
      ensures Tidy(cfg, s', o) && Tallied(cfg, s'.members[o].Own(), MemberCursors(s', s'.members[o]))
    {
      if o != id { UntouchedStaysTidy(cfg, s, s', o); }
    }
  }

  lemma QuietStepKeeps(cfg: Config, s: System, step: Step)
    requires QuietInv(cfg, s) && Enabled(s, step) && Quiet(s, step)
    ensures QuietInv(cfg, Apply(cfg, s, step))
  {
    hide OwnerOf, Covered, SinkGenuine, Routed, HandledAccounted, MemberSafe, Tidy, Tallied;
    QuietIsAllowed(cfg, s, step);
    StepKeeps(cfg, s, step);
    match step
    case Produce(record) => ProduceStaysTidy(cfg, s, record);
    case Join(id) =>
      assert Apply(cfg, s, step).group.position == Rewound(s.group, {});
      DealStaysTidy(cfg, s, Apply(cfg, s, step), {});
    case Leave(id) => DealStaysTidy(cfg, s, Apply(cfg, s, step), OwnedBy(s.group.assignment, id));
    case Crash(id) =>
      assert id !in s.group.assignment ==> Apply(cfg, s, step).group.position == Rewound(s.group, {});
      DealStaysTidy(cfg, s, Apply(cfg, s, step), OwnedBy(s.group.assignment, id));
    case Poll(id, max) => PollStaysTidy(cfg, s, id, max);
    case Handle(id, outcome) => HandleStaysTidy(cfg, s, id, outcome);
    case Commit(id) => CommitStaysTidy(cfg, s, id);
    case Seek(id) => SeekStaysTidy(cfg, s, id);
  }

  // ---- whole runs ----

  ghost predicate QuietRun(cfg: Config, s: System, steps: seq<Step>, t: System)
    decreases |steps|
  {
    if steps == [] then s == t
    else Sizes(s) && Enabled(s, steps[0]) && Quiet(s, steps[0]) && QuietRun(cfg, Apply(cfg, s, steps[0]), steps[1..], t)
  }

  lemma {:induction false} QuietRunKeeps(cfg: Config, s: System, steps: seq<Step>, t: System)
    requires QuietInv(cfg, s) && QuietRun(cfg, s, steps, t)
    ensures QuietInv(cfg, t) && GuardedRun(cfg, s, steps, t)
    decreases |steps|
  {
    hide QuietInv, Apply, Enabled, Quiet;
    if steps != [] {
      QuietStepKeeps(cfg, s, steps[0]);
      QuietIsAllowed(cfg, s, steps[0]);
      QuietRunKeeps(cfg, Apply(cfg, s, steps[0]), steps[1..], t);
    }
  }

  lemma StartIsQuiet(cfg: Config, partitions: nat, deadPartitions: nat)
    requires partitions >= 1 && deadPartitions >= 1
    ensures QuietInv(cfg, Start(partitions, deadPartitions))
  {
    StartIsSafe(cfg, partitions, deadPartitions);
  }

  /**
   Between cycles. Whenever a quiet run has every member between cycles, each partition is read
   exactly as far as it is committed, and no further than it goes; and nothing has been lost.
   */
  lemma BetweenCycles(cfg: Config, partitions: nat, deadPartitions: nat, steps: seq<Step>, t: System)
    requires partitions >= 1 && deadPartitions >= 1
    requires QuietRun(cfg, Start(partitions, deadPartitions), steps, t)
    requires forall id :: id in t.members ==> t.members[id].Resting?
    ensures Sizes(t) && NothingLost(cfg, t)
    ensures forall p: nat :: p < |t.logs| ==> t.group.position[p] == t.group.committed[p] <= |t.logs[p]|
  {
    hide QuietRun, GuardedRun, NothingLost, Covered, SinkGenuine, Routed, HandledAccounted, MemberSafe, Tallied;
    StartIsQuiet(cfg, partitions, deadPartitions);
    QuietRunKeeps(cfg, Start(partitions, deadPartitions), steps, t);
    InvLosesNothing(cfg, t);
    forall p: nat | p < |t.logs| ensures t.group.position[p] == t.group.committed[p] {
      if t.group.assignment != map[] {
        var o := OwnerOf(t.group.assignment.Keys, p);
        OwnerIsUnique(t.group.assignment, |t.logs|, o, p);
        assert Tidy(cfg, t, o);
      }
    }
  }

  /**
   Retry bound. In a quiet run every retry counter of every instance lies between one and the limit,
   an instance's processor fails on one offset at most limit + 1 times, and a counter of an instance
   between cycles that is not below the committed offset sits exactly at it.
   */
  lemma RetriesAreBounded(cfg: Config, partitions: nat, deadPartitions: nat, steps: seq<Step>, t: System, id: string)
    requires partitions >= 1 && deadPartitions >= 1
    requires QuietRun(cfg, Start(partitions, deadPartitions), steps, t)
    requires id in t.members
    ensures Sizes(t)
    ensures var l := t.members[id].Own();
      && (forall k :: k in l.retries ==> k.0 < |t.logs| && 1 <= l.retries[k] <= Limit(cfg))
      && (forall k :: k in l.failures ==> l.failures[k] <= Limit(cfg) + 1)
      && (!t.members[id].Working? ==> forall k :: k in l.retries && k.1 >= t.group.committed[k.0] ==> k.1 == t.group.committed[k.0])
  {
    hide QuietRun, GuardedRun, Covered, SinkGenuine, Routed, HandledAccounted, MemberSafe, Tidy;
    StartIsQuiet(cfg, partitions, deadPartitions);
    QuietRunKeeps(cfg, Start(partitions, deadPartitions), steps, t);
    assert Tallied(cfg, t.members[id].Own(), MemberCursors(t, t.members[id]));
  }

  // ---- once per signature, in any run at all ----

  ghost predicate AllOnce(s: System) {
    forall id :: id in s.members ==> OncePerSignature(s.members[id].Own())
  }

  lemma HandleStaysOnce(cfg: Config, l: Local, c: ConsumedRecord, outcome: Outcome)
    requires OncePerSignature(l)
    ensures OncePerSignature(HandleRecord(cfg, l, c, outcome).local)
  {
  }

  lemma StepStaysOnce(cfg: Config, s: System, step: Step)
    requires AllOnce(s) && Sizes(s) && Enabled(s, step)
    ensures AllOnce(Apply(cfg, s, step))
  {
    hide HandleRecord, Delivery, Rebalanced, BrokerModel.Commit, Append;
    if step.Handle? {
      var w := s.members[step.id].work;
      assert OncePerSignature(w.local) by { assert s.members[step.id].Own() == w.local; }
      HandleStaysOnce(cfg, w.local, w.pending[0], step.outcome);
    }
  }

  lemma {:induction false} RunStaysOnce(cfg: Config, s: System, steps: seq<Step>, t: System)
    requires AllOnce(s) && Run(cfg, s, steps, t)
    ensures AllOnce(t)
    decreases |steps|
  {
    hide AllOnce, Apply, Enabled;
    if steps != [] {
      StepStaysOnce(cfg, s, steps[0]);
      RunStaysOnce(cfg, Apply(cfg, s, steps[0]), steps[1..], t);
    }
  }

  /**
   Effectively once. In any run, guarded or not, one instance's processor returns normally at most
   once for each signature, and exactly for the signatures the instance has seen.
   */
  lemma ReturnsOncePerSignature(cfg: Config, partitions: nat, deadPartitions: nat, steps: seq<Step>, t: System, id: string)
    requires partitions >= 1 && deadPartitions >= 1
    requires Run(cfg, Start(partitions, deadPartitions), steps, t) && id in t.members
    ensures var l := t.members[id].Own();
      NoDuplicates(l.returned) && forall sig :: sig in l.returned <==> sig in l.seen
  {
    RunStaysOnce(cfg, Start(partitions, deadPartitions), steps, t);
  }
}
