/**
 Quiet runs in which no one crashes inside a batch. In these what has been handled of a partition
 can be read off the state that the code keeps: it is the frontier of the owner's batch, or the
 committed offset when the owner has no batch.
 */
module GentleRuns {
  import opened EventTypes
  import opened BrokerModel
  import opened ConsumerModel
  import opened CycleLaws
  import opened Protocol
  import opened QuietRuns
  import opened ReleasingRuns

  /** A quiet step that does not crash a member inside a batch. */
  ghost predicate Gentle(s: System, step: Step) {
    Quiet(s, step) && (step.Crash? && step.id in s.members ==> !s.members[step.id].Working?)
  }

  /** What has been handled of each partition is what its owner, or else the group, knows of. */
  ghost predicate Known(s: System)
    requires Sizes(s)
  {
    && (forall id, p :: id in s.group.assignment && id in s.members && p in s.group.assignment[id] && p < |s.logs| ==>
         Heights(s)[p] == MemberCursors(s, s.members[id])[p])
    && (s.group.assignment == map[] ==> Heights(s) == s.group.committed)
  }

  ghost predicate GentleInv(cfg: Config, s: System) {
    QuietInv(cfg, s) && Known(s)
  }

  // ---- preservation ----

  /** When every owner of a partition is outside a batch, what is handled is what is committed. */
  lemma IdleIsCommitted(cfg: Config, s: System)
    requires GentleInv(cfg, s)
    requires forall id :: id in s.group.assignment && id in s.members ==> !s.members[id].Working?
    ensures Sizes(s) && Heights(s) == s.group.committed
  {
    hide Covered, SinkGenuine, Routed, HandledAccounted, MemberSafe, Tidy, Tallied, Height;
    OnlySizes(cfg, s);
    if s.group.assignment != map[] {
      forall p: nat | p < |s.logs| ensures Heights(s)[p] == s.group.committed[p] {
        var o := OwnerOf(s.group.assignment.Keys, p);
        OwnerIsUnique(s.group.assignment, |s.logs|, o, p);
        assert MemberCursors(s, s.members[o]) == s.group.committed;
      }
    }
  }

  /** Dealing the partitions out again, with nobody inside a batch, leaves what is known as it was. */
  lemma DealStaysKnown(cfg: Config, s: System, s': System)
    requires GentleInv(cfg, s) && Sizes(s')
    requires s'.logs == s.logs && s'.handled == s.handled && s'.group.committed == s.group.committed
    requires forall o :: o in s.members ==> !s.members[o].Working?
    requires forall o :: o in s'.members ==> !s'.members[o].Working?
    ensures Known(s')
  {
    hide QuietInv, Height;
    IdleIsCommitted(cfg, s);
    assert Heights(s') == Heights(s);
  }

  /** The next record of a batch lies on a partition of the member's own. */
  lemma OwnPartition(logs: TopicLogs, topic: string, owned: set<nat>, base: seq<nat>, position: seq<nat>, w: Work)
    requires Aligned(logs, topic, owned, base, position, w) && w.pending != []
    ensures w.pending[0].partition in owned
  {
    NextIsAtCursor(logs, topic, owned, base, position, w);
  }

  /** A record that is done was the one at its partition's cursor. */
  lemma SkippedOrAtCursor(cfg: Config, logs: TopicLogs, owned: set<nat>, base: seq<nat>, position: seq<nat>, w: Work, outcome: Outcome)
    requires Aligned(logs, cfg.topic, owned, base, position, w) && w.pending != []
    ensures var c := w.pending[0];
      c.partition < |base| && (HandleNext(cfg, w, outcome).fate.Skipped? || c.offset == Cursors(w, base)[c.partition])
  {
    hide Slice;
    NextIsAtCursor(logs, cfg.topic, owned, base, position, w);
  }

  lemma HandleStaysKnown(cfg: Config, s: System, id: string, outcome: Outcome)
    requires GentleInv(cfg, s) && Enabled(s, Handle(id, outcome))
    ensures Sizes(Apply(cfg, s, Handle(id, outcome))) && Known(Apply(cfg, s, Handle(id, outcome)))
  {
    hide Covered, SinkGenuine, Routed, HandledAccounted, MemberSafe, Tallied, Aligned, HandleNext, Slice, Height, Gapless, Bounds, Rebalanced;
    var s' := Apply(cfg, s, Handle(id, outcome));
    var w := s.members[id].work;
    var owned := OwnedBy(s.group.assignment, id);
    var c := w.pending[0];
    assert Tidy(cfg, s, id);
    OnlySizes(cfg, s);
    HandledHeights(cfg, s, id, outcome);
    OwnPartition(s.logs, cfg.topic, owned, s.group.committed, s.group.position, w);
    HandleMovesCursor(cfg, s.logs, owned, s.group.committed, s.group.position, w, outcome);
    SkippedOrAtCursor(cfg, s.logs, owned, s.group.committed, s.group.position, w, outcome);
    assert Heights(s)[c.partition] == Cursors(w, s.group.committed)[c.partition];
    forall o, p | o in s'.group.assignment && o in s'.members && p in s'.group.assignment[o] && p < |s'.logs|
      ensures Heights(s')[p] == MemberCursors(s', s'.members[o])[p]
    {
      if o != id && p == c.partition { NoShare(s, o, id, p); }
    }
  }

  /** A batch offers to commit only partitions of the member's own. */
  lemma CommitsOwn(logs: TopicLogs, topic: string, owned: set<nat>, base: seq<nat>, position: seq<nat>, w: Work)
    requires Aligned(logs, topic, owned, base, position, w)
    ensures |base| == |logs| && forall p: nat :: p < |base| && p !in owned ==> Cursors(w, base)[p] == base[p]
  {
  }

  lemma CommitStaysKnown(cfg: Config, s: System, id: string)
    requires GentleInv(cfg, s) && Enabled(s, Commit(id))
    ensures Sizes(Apply(cfg, s, Commit(id))) && Known(Apply(cfg, s, Commit(id)))
  {
    hide Covered, SinkGenuine, Routed, HandledAccounted, MemberSafe, Tallied, Slice, Height, Gapless, Bounds, Rebalanced;
    var s' := Apply(cfg, s, Commit(id));
    var w := s.members[id].work;
    assert Tidy(cfg, s, id);
    OnlySizes(cfg, s);
    assert s'.group.committed == Cursors(w, s.group.committed);
    CommitsOwn(s.logs, cfg.topic, OwnedBy(s.group.assignment, id), s.group.committed, s.group.position, w);
    assert Heights(s') == Heights(s);
    forall o, p | o in s'.group.assignment && o in s'.members && p in s'.group.assignment[o] && p < |s'.logs|
      ensures Heights(s')[p] == MemberCursors(s', s'.members[o])[p]
    {
      if o != id && p in OwnedBy(s.group.assignment, id) { NoShare(s, o, id, p); }
    }
  }

  lemma PollStaysKnown(cfg: Config, s: System, id: string, max: int)
    requires GentleInv(cfg, s) && Enabled(s, Poll(id, max))
    ensures Sizes(Apply(cfg, s, Poll(id, max))) && Known(Apply(cfg, s, Poll(id, max)))
  {
    hide Tidy, Tallied, Inv, Height, Delivery, Slice;
    OnlySizes(cfg, s);
    PollerIsTidy(cfg, s, id, max);
    RestingCursors(s, s.members[id]);
    assert Heights(Apply(cfg, s, Poll(id, max))) == Heights(s);
  }

  lemma GentleStepKeeps(cfg: Config, s: System, step: Step)
    requires GentleInv(cfg, s) && Enabled(s, step) && Gentle(s, step)
    ensures GentleInv(cfg, Apply(cfg, s, step))
  {
    hide Inv, Tidy, Tallied, Height, Rebalanced, Delivery;
    OnlySizes(cfg, s);
    QuietStepKeeps(cfg, s, step);
    var s' := Apply(cfg, s, step);
    OnlySizes(cfg, s');
    match step
    case Produce(record) => assert Heights(s') == Heights(s);
    case Join(id) => DealStaysKnown(cfg, s, s');
    case Leave(id) => DealStaysKnown(cfg, s, s');
    case Crash(id) => DealStaysKnown(cfg, s, s');
    case Poll(id, max) => PollStaysKnown(cfg, s, id, max);
    case Handle(id, outcome) => HandleStaysKnown(cfg, s, id, outcome);
    case Commit(id) => CommitStaysKnown(cfg, s, id);
    case Seek(id) => assert Heights(s') == Heights(s);
  }

  // ---- whole runs ----

  ghost predicate GentleRun(cfg: Config, s: System, steps: seq<Step>, t: System)
    decreases |steps|
  {
    if steps == [] then s == t
    else Sizes(s) && Enabled(s, steps[0]) && Gentle(s, steps[0]) && GentleRun(cfg, Apply(cfg, s, steps[0]), steps[1..], t)
  }

  lemma {:induction false} GentleRunKeeps(cfg: Config, s: System, steps: seq<Step>, t: System)
    requires GentleInv(cfg, s) && GentleRun(cfg, s, steps, t)
    ensures GentleInv(cfg, t) && QuietRun(cfg, s, steps, t)
    decreases |steps|
  {
    hide GentleInv, Apply, Enabled, Quiet;
    if steps != [] {
      GentleStepKeeps(cfg, s, steps[0]);
      GentleRunKeeps(cfg, Apply(cfg, s, steps[0]), steps[1..], t);
    }
  }

  lemma {:induction false} GentleRunIsRun(cfg: Config, s: System, steps: seq<Step>, t: System)
    requires GentleRun(cfg, s, steps, t)
    ensures Run(cfg, s, steps, t)
    decreases |steps|
  {
    hide Apply, Enabled, Gentle;
    if steps != [] { GentleRunIsRun(cfg, Apply(cfg, s, steps[0]), steps[1..], t); }
  }

  lemma {:induction false} GentleRunsCompose(cfg: Config, s: System, a: seq<Step>, t: System, b: seq<Step>, u: System)
    requires GentleRun(cfg, s, a, t) && GentleRun(cfg, t, b, u)
    ensures GentleRun(cfg, s, a + b, u)
    decreases |a|
  {
    hide Apply, Enabled, Gentle;
    if a == [] {
      assert a + b == b;
    } else {
      assert (a + b)[1..] == a[1..] + b;
      GentleRunsCompose(cfg, Apply(cfg, s, a[0]), a[1..], t, b, u);
    }
  }

  /** One more quiet step after a quiet run. */
  lemma {:induction false} QuietThenOne(cfg: Config, s: System, a: seq<Step>, t: System, step: Step)
    requires QuietRun(cfg, s, a, t) && Sizes(t) && Enabled(t, step) && Quiet(t, step)
    ensures QuietRun(cfg, s, a + [step], Apply(cfg, t, step))
    decreases |a|
  {
    hide Apply, Enabled, Quiet;
    if a == [] {
      assert a + [step] == [step] && [step][1..] == [];
      assert QuietRun(cfg, Apply(cfg, t, step), [], Apply(cfg, t, step));
    } else {
      assert (a + [step])[1..] == a[1..] + [step];
      QuietThenOne(cfg, Apply(cfg, s, a[0]), a[1..], t, step);
    }
  }

  lemma StartIsGentle(cfg: Config, partitions: nat, deadPartitions: nat)
    requires partitions >= 1 && deadPartitions >= 1
    ensures GentleInv(cfg, Start(partitions, deadPartitions))
  {
    hide Height;
    StartIsQuiet(cfg, partitions, deadPartitions);
    HeightIs(0);
    assert Below(0) == {};
  }

  /** Some member has handled a record of the batch it is working on. */
  ghost predicate HandledInBatch(s: System) {
    exists id :: id in s.members && s.members[id].Working? && s.members[id].work.frontier != map[]
  }

  lemma NothingInFrontier(w: Work, base: seq<nat>)
    requires w.frontier == map[]
    ensures Cursors(w, base) == base
  {
  }

  lemma FrontierIsAhead(cfg: Config, s: System, id: string)
    requires GentleInv(cfg, s) && id in s.members && s.members[id].Working? && s.members[id].work.frontier != map[]
    ensures Sizes(s) && Heights(s) != s.group.committed
  {
    hide Inv, Tallied, Height, Slice;
    OnlySizes(cfg, s);
    assert Tidy(cfg, s, id);
    var w := s.members[id].work;
    var p :| p in w.frontier;
    assert Heights(s)[p] == Cursors(w, s.group.committed)[p] > s.group.committed[p];
  }

  /**
   What is handled is exactly what is committed if and only if no member has handled a record of a
   batch it is still working on.
   */
  lemma HandledIsCommittedExactlyWhen(cfg: Config, partitions: nat, deadPartitions: nat, steps: seq<Step>, t: System)
    requires partitions >= 1 && deadPartitions >= 1
    requires GentleRun(cfg, Start(partitions, deadPartitions), steps, t)
    ensures Sizes(t) && (Heights(t) == t.group.committed <==> !HandledInBatch(t))
  {
    hide GentleRun, QuietRun, Inv, Tidy, Tallied, Height, Covered;
    StartIsGentle(cfg, partitions, deadPartitions);
    GentleRunKeeps(cfg, Start(partitions, deadPartitions), steps, t);
    OnlySizes(cfg, t);
    if HandledInBatch(t) {
      var id :| id in t.members && t.members[id].Working? && t.members[id].work.frontier != map[];
      FrontierIsAhead(cfg, t, id);
    } else if t.group.assignment != map[] {
      forall p: nat | p < |t.logs| ensures Heights(t)[p] == t.group.committed[p] {
        var o := OwnerOf(t.group.assignment.Keys, p);
        OwnerIsUnique(t.group.assignment, |t.logs|, o, p);
        if t.members[o].Working? { NothingInFrontier(t.members[o].work, t.group.committed); }
      }
      assert Heights(t) == t.group.committed;
    }
  }

  /** A partition is read beyond what is handled if and only if its owner still holds records of it. */
  lemma ReadAheadIsHeld(cfg: Config, s: System, id: string, p: nat)
    requires GentleInv(cfg, s) && id in s.group.assignment && p in s.group.assignment[id]
    ensures Sizes(s) && p < |s.logs| && id in s.members
    ensures s.group.position[p] > Heights(s)[p] <==> Holds(s.members[id], p)
  {
    hide Covered, SinkGenuine, Routed, HandledAccounted, MemberSafe, Tallied, Height, Slice, Gapless;
    OnlySizes(cfg, s);
    OwnerIsUnique(s.group.assignment, |s.logs|, id, p);
    assert Tidy(cfg, s, id);
  }
}
