/**
 Exactly when a join, leave or crash is safe. `_rebalance` hands partitions from one surviving
 member to another without rolling their read positions back. Such a move can make the group
 commit past a record nobody has handled if and only if the partition was read beyond what is
 handled.
 */
module UnsafeMoves {
  import opened Prelude
  import opened EventTypes
  import opened Ordering
  import opened BrokerModel
  import opened PollModel
  import opened ConsumerModel
  import opened CycleLaws
  import opened Protocol
  import opened QuietRuns
  import opened GentleRuns
  import opened ReleasingRuns

  /** No partition is committed past a record that nobody has handled. */
  ghost predicate NothingSkipped(s: System) {
    Sizes(s) && forall p: nat :: p < |s.logs| ==> s.group.committed[p] <= Heights(s)[p]
  }

  ghost predicate Calm(steps: seq<Step>) {
    forall step :: step in steps ==> !Rebalances(step)
  }

  // ---- runs ----

  lemma {:induction false} RunsCompose(cfg: Config, s: System, a: seq<Step>, t: System, b: seq<Step>, u: System)
    requires Run(cfg, s, a, t) && Run(cfg, t, b, u)
    ensures Run(cfg, s, a + b, u)
    decreases |a|
  {
    hide Apply, Enabled;
    if a == [] {
      assert a + b == b;
    } else {
      assert (a + b)[1..] == a[1..] + b;
      RunsCompose(cfg, Apply(cfg, s, a[0]), a[1..], t, b, u);
    }
  }

  lemma OneStep(cfg: Config, s: System, step: Step)
    requires Sizes(s) && Enabled(s, step)
    ensures Run(cfg, s, [step], Apply(cfg, s, step))
  {
    hide Apply, Enabled;
    var t := Apply(cfg, s, step);
    assert [step][1..] == [];
    assert Run(cfg, t, [], t);
  }

  lemma {:induction false} CalmRunIsGuarded(cfg: Config, s: System, steps: seq<Step>, t: System)
    requires Run(cfg, s, steps, t) && Calm(steps)
    ensures GuardedRun(cfg, s, steps, t)
    decreases |steps|
  {
    hide Apply, Enabled;
    if steps != [] {
      assert steps[0] in steps;
      CalmRunIsGuarded(cfg, Apply(cfg, s, steps[0]), steps[1..], t);
    }
  }

  // ---- the hazard, and how it turns into a loss ----

  /** The member holds no record of the partition and is not about to commit or rewind it. */
  ghost predicate FreeOf(m: Member, p: nat) {
    match m
    case Resting(_) => true
    case Working(w) => Slice(w.pending, p) == [] && p !in w.frontier && p !in w.seekBack
    case Rewinding(_, seekBack) => p !in seekBack
  }

  /** Partition `p` is read beyond what is handled, and its owner `d` knows nothing of the records between. */
  ghost predicate Hazard(cfg: Config, s: System, p: nat, d: string) {
    && Sizes(s) && p < |s.logs| && Heights(s)[p] < s.group.position[p] <= |s.logs[p]|
    && PartitionFor(cfg.hash, s.logs[p][0].key, |s.logs|) == p
    && d in s.members && p in OwnedBy(s.group.assignment, d)
    && (forall q :: q in OwnedBy(s.group.assignment, d) ==> q < |s.logs|)
    && FreeOf(s.members[d], p)
  }

  lemma HandleKeepsHazard(cfg: Config, s: System, p: nat, d: string)
    requires Hazard(cfg, s, p, d) && Enabled(s, Handle(d, Returned))
    ensures var t := Apply(cfg, s, Handle(d, Returned));
      Hazard(cfg, t, p, d) && t.members[d].Working? && t.members[d].work.pending == s.members[d].work.pending[1..]
  {
    hide Slice, HandleRecord, Height;
    var w := s.members[d].work;
    SlicePop(w.pending, p);
  }

  lemma NoStep(cfg: Config, s: System)
    ensures Run(cfg, s, [], s) && Calm([])
  {
  }

  lemma Prepend(cfg: Config, s: System, step: Step, steps: seq<Step>, t: System)
    requires Sizes(s) && Enabled(s, step) && !Rebalances(step)
    requires Run(cfg, Apply(cfg, s, step), steps, t) && Calm(steps)
    ensures Run(cfg, s, [step] + steps, t) && Calm([step] + steps)
  {
    hide Apply, Enabled;
    OneStep(cfg, s, step);
    RunsCompose(cfg, s, [step], Apply(cfg, s, step), steps, t);
  }

  lemma SeekKeepsHazard(cfg: Config, s: System, p: nat, d: string)
    requires Hazard(cfg, s, p, d) && Enabled(s, Seek(d))
    ensures var t := Apply(cfg, s, Seek(d)); Hazard(cfg, t, p, d) && t.members[d].Resting?
  {
    hide Slice, Height;
  }

  lemma CommitKeepsHazard(cfg: Config, s: System, p: nat, d: string)
    requires Hazard(cfg, s, p, d) && Enabled(s, Commit(d))
    ensures var t := Apply(cfg, s, Commit(d)); Hazard(cfg, t, p, d) && t.members[d].Rewinding?
  {
    hide Slice, Height;
  }

  /** The owner works off whatever it still has in hand. */
  lemma {:induction false} OwnerFinishes(cfg: Config, s: System, p: nat, d: string) returns (steps: seq<Step>, t: System)
    requires Hazard(cfg, s, p, d)
    ensures Run(cfg, s, steps, t) && Calm(steps) && Hazard(cfg, t, p, d) && t.members[d].Resting?
    decreases match s.members[d] case Working(w) => |w.pending| + 2 case Rewinding(_, _) => 1 case Resting(_) => 0
  {
    hide Apply, Run, Height, Calm;
    match s.members[d]
    case Resting(_) =>
      steps, t := [], s;
      NoStep(cfg, s);
    case Rewinding(_, _) =>
      var step := Seek(d);
      SeekKeepsHazard(cfg, s, p, d);
      steps, t := OwnerFinishes(cfg, Apply(cfg, s, step), p, d);
      Prepend(cfg, s, step, steps, t);
      steps := [step] + steps;
    case Working(w) =>
      var step := if w.pending == [] then Commit(d) else Handle(d, Returned);
      if w.pending == [] { CommitKeepsHazard(cfg, s, p, d); } else { HandleKeepsHazard(cfg, s, p, d); }
      steps, t := OwnerFinishes(cfg, Apply(cfg, s, step), p, d);
      Prepend(cfg, s, step, steps, t);
      steps := [step] + steps;
  }

  /** The owner is working on records of the partition that lie beyond an unhandled one. */
  ghost predicate Overreaching(s: System, p: nat, d: string) {
    && Sizes(s) && p < |s.logs|
    && d in s.members && s.members[d].Working? && s.members[d].work.seekBack == {}
    && var w := s.members[d].work;
    && (forall i :: 0 <= i < |Slice(w.pending, p)| ==> Slice(w.pending, p)[i].offset > Heights(s)[p])
    && (if p in w.frontier then w.frontier[p] > Heights(s)[p] else Slice(w.pending, p) != [])
  }

  /** Handling an offset above the height does not raise it. */
  lemma HeightStays(h: set<nat>, o: nat)
    requires o > Height(h)
    ensures Height(h + {o}) == Height(h)
  {
    var a, b := Height(h), Height(h + {o});
    assert a < b ==> a in Below(b);
    assert b < a ==> b in Below(a);
  }

  /** A record is done whenever the processor does not fail on it. */
  lemma ReturnedIsDone(cfg: Config, w: Work)
    requires w.pending != [] && w.pending[0].partition !in w.seekBack
    ensures var c := w.pending[0];
      var a := HandleNext(cfg, w, Returned);
      && (a.fate.Processed? || a.fate.Quarantined?)
      && a.work.pending == w.pending[1..] && a.work.seekBack == w.seekBack
      && a.work.frontier == w.frontier[c.partition := c.offset + 1]
  {
  }

  lemma HandleKeepsOverreaching(cfg: Config, s: System, p: nat, d: string)
    requires Overreaching(s, p, d) && Enabled(s, Handle(d, Returned))
    ensures var t := Apply(cfg, s, Handle(d, Returned));
      Overreaching(t, p, d) && t.members[d].work.pending == s.members[d].work.pending[1..]
  {
    hide Slice, Height, HandleNext, Below;
    var w := s.members[d].work;
    var c := w.pending[0];
    ReturnedIsDone(cfg, w);
    SlicePop(w.pending, p);
    var t := Apply(cfg, s, Handle(d, Returned));
    var rest := Slice(w.pending[1..], p);
    if c.partition == p {
      assert Slice(w.pending, p)[0] == c;
      HeightStays(s.handled[p], c.offset);
      assert forall i :: 0 <= i < |rest| ==> rest[i] == Slice(w.pending, p)[i + 1];
    } else {
      assert rest == Slice(w.pending, p);
    }
    assert Heights(t)[p] == Heights(s)[p];
    assert t.members[d].work == HandleNext(cfg, w, Returned).work;
  }

  /** Such a batch, worked off and committed, commits past the unhandled record. */
  lemma {:induction false} OverreachLoses(cfg: Config, s: System, p: nat, d: string) returns (steps: seq<Step>, t: System)
    requires Overreaching(s, p, d)
    ensures Run(cfg, s, steps, t) && Calm(steps) && !NothingSkipped(t)
    decreases |s.members[d].work.pending|
  {
    hide Run, Height, Calm;
    if s.members[d].work.pending == [] {
      var step := Commit(d);
      t := Apply(cfg, s, step);
      assert Heights(t)[p] == Heights(s)[p];
      NoStep(cfg, t);
      Prepend(cfg, s, step, [], t);
      steps := [step] + [];
    } else {
      var step := Handle(d, Returned);
      HandleKeepsOverreaching(cfg, s, p, d);
      steps, t := OverreachLoses(cfg, Apply(cfg, s, step), p, d);
      Prepend(cfg, s, step, steps, t);
      steps := [step] + steps;
    }
  }

  /** Polled without a limit, a partition delivers all it has from its read position on. */
  lemma UnlimitedPoll(cfg: Config, s: System, p: nat, d: string) returns (max: int)
    requires Sizes(s) && p in OwnedBy(s.group.assignment, d)
    requires forall q :: q in OwnedBy(s.group.assignment, d) ==> q < |s.logs|
    ensures Slice(Delivery(s.logs, cfg.topic, s.group, d, max), p) == Tail(s.logs, cfg.topic, p, s.group.position[p])
  {
    hide Slice, Tail, Unread;
    var owned := SortedNats(OwnedBy(s.group.assignment, d));
    assert forall i :: 0 <= i < |owned| ==> owned[i] in owned;
    var all := Unread(s.logs, cfg.topic, s.group.position, owned);
    max := |all|;
    assert Take(all, max) == all;
    UnreadSlice(s.logs, cfg.topic, s.group.position, owned, p);
  }

  /** A resting owner with something left to read overreaches as soon as it polls enough. */
  lemma PollOverreaches(cfg: Config, s: System, p: nat, d: string) returns (max: int)
    requires Hazard(cfg, s, p, d) && s.members[d].Resting? && s.group.position[p] < |s.logs[p]|
    ensures Enabled(s, Poll(d, max)) && Overreaching(Apply(cfg, s, Poll(d, max)), p, d)
  {
    hide Slice, Height, Delivery;
    max := UnlimitedPoll(cfg, s, p, d);
    var batch := Delivery(s.logs, cfg.topic, s.group, d, max);
    if batch == [] { SliceUniform(batch, p, p); }
    assert batch != [];
    var t := Apply(cfg, s, Poll(d, max));
    assert Heights(t) == Heights(s);
  }

  lemma CalmBoth(a: seq<Step>, b: seq<Step>)
    requires Calm(a) && Calm(b)
    ensures Calm(a + b)
  {
  }

  /** Any hazard has a continuation without joins, leaves or crashes that commits past an unhandled record. */
  lemma HazardLoses(cfg: Config, s: System, p: nat, d: string) returns (steps: seq<Step>, t: System)
    requires Hazard(cfg, s, p, d)
    ensures Run(cfg, s, steps, t) && Calm(steps) && !NothingSkipped(t)
  {
    hide Run, Height, Calm, Delivery;
    var a, u := OwnerFinishes(cfg, s, p, d);
    var more := Produce(u.logs[p][0]);
    var v := Apply(cfg, u, more);
    assert Heights(v) == Heights(u);
    var max := PollOverreaches(cfg, v, p, d);
    var x := Apply(cfg, v, Poll(d, max));
    steps, t := OverreachLoses(cfg, x, p, d);
    Prepend(cfg, v, Poll(d, max), steps, t);
    Prepend(cfg, u, more, [Poll(d, max)] + steps, t);
    RunsCompose(cfg, s, a, u, [more] + ([Poll(d, max)] + steps), t);
    CalmBoth(a, [more] + ([Poll(d, max)] + steps));
    steps := a + ([more] + ([Poll(d, max)] + steps));
  }

  /** In a quiet state a member holds nothing of a partition that it does not own. */
  lemma NonOwnerIsFree(cfg: Config, s: System, d: string, p: nat)
    requires QuietInv(cfg, s) && d in s.members && p !in OwnedBy(s.group.assignment, d)
    ensures FreeOf(s.members[d], p)
  {
    hide Inv, Tallied, Slice;
    OnlySizes(cfg, s);
    assert Tidy(cfg, s, d);
  }

  lemma NewcomerIsFree(p: nat)
    ensures FreeOf(Resting(NewLocal()), p)
  {
  }

  /** A move that breaks the guard leaves a hazard behind. */
  lemma UnsafeMoveIsHazard(cfg: Config, s: System, step: Step, p: nat) returns (d: string)
    requires QuietInv(cfg, s) && Enabled(s, step) && Rebalances(step)
    requires p < |s.logs| && ChangesHands(s.group, Apply(cfg, s, step).group, p) && s.group.position[p] > Heights(s)[p]
    ensures Hazard(cfg, Apply(cfg, s, step), p, d)
  {
    hide OwnerOf, Covered, SinkGenuine, HandledAccounted, MemberSafe, Tallied, Tidy, FreeOf, Height, Rebalanced;
    var t := Apply(cfg, s, step);
    var n := |s.logs|;
    var e :| e in s.group.assignment && e in t.group.assignment && p in s.group.assignment[e] && p !in t.group.assignment[e];
    d := OwnerOf(t.group.assignment.Keys, p);
    OwnerIsUnique(t.group.assignment, n, d, p);
    forall q | q in t.group.assignment[d] ensures q < n { OwnerIsUnique(t.group.assignment, n, d, q); }
    if d in s.members {
      if p in OwnedBy(s.group.assignment, d) { NoShare(s, d, e, p); }
      NonOwnerIsFree(cfg, s, d, p);
    } else {
      assert FreeOf(Resting(NewLocal()), p) by { NewcomerIsFree(p); }
    }
    assert t.group.position[p] == s.group.position[p] by {
      if !step.Join? && p in OwnedBy(s.group.assignment, step.id) { NoShare(s, step.id, e, p); }
    }
    assert Heights(t) == Heights(s);
  }

  lemma InvSkipsNothing(cfg: Config, s: System)
    requires Inv(cfg, s)
    ensures NothingSkipped(s)
  {
  }

  /**
   A join, leave or crash from a quiet state is safe - no continuation, further joins, leaves and
   crashes included as long as they meet the guard, ever commits past an unhandled record - if and
   only if no partition that passes between two surviving members has been read beyond what is
   handled.
   */
  lemma MoveIsSafeExactlyWhen(cfg: Config, s: System, step: Step)
    requires QuietInv(cfg, s) && Enabled(s, step) && Rebalances(step)
    ensures (forall steps, t :: GuardedRun(cfg, Apply(cfg, s, step), steps, t) ==> NothingSkipped(t))
      <==> SafeMove(s, Apply(cfg, s, step).group)
  {
    hide Apply, Height, Run, GuardedRun, Calm, NothingSkipped, Enabled, Tidy, Tallied;
    var s' := Apply(cfg, s, step);
    if SafeMove(s, s'.group) {
      StepKeeps(cfg, s, step);
      forall steps, t | GuardedRun(cfg, s', steps, t) ensures NothingSkipped(t) {
        RunKeeps(cfg, s', steps, t);
        InvSkipsNothing(cfg, t);
      }
    } else {
      var p: nat :| p < |s.logs| && ChangesHands(s.group, s'.group, p) && s.group.position[p] > Heights(s)[p];
      var d := UnsafeMoveIsHazard(cfg, s, step, p);
      var steps, t := HazardLoses(cfg, s', p, d);
      CalmRunIsGuarded(cfg, s', steps, t);
    }
  }

  lemma PlainSizes(cfg: Config, s: System)
    requires GentleInv(cfg, s)
    ensures Sizes(s)
  {
  }

  lemma SafeMeansReleased(cfg: Config, s: System, g': Group)
    requires GentleInv(cfg, s)
    ensures Sizes(s) && (SafeMove(s, g') <==> GivesUpNothingHeld(s, g'))
  {
    hide QuietInv, Height, Holds, Known;
    assert Sizes(s) by { PlainSizes(cfg, s); }
    if SafeMove(s, g') {
      forall id, p | id in s.group.assignment && id in s.members && id in g'.assignment && p in s.group.assignment[id] && p !in g'.assignment[id]
        ensures !Holds(s.members[id], p)
      {
        ReadAheadIsHeld(cfg, s, id, p);
        assert ChangesHands(s.group, g', p);
      }
    }
    if GivesUpNothingHeld(s, g') {
      forall p: nat | p < |s.logs| && ChangesHands(s.group, g', p) ensures s.group.position[p] <= Heights(s)[p] {
        var id :| id in s.group.assignment && id in g'.assignment && p in s.group.assignment[id] && p !in g'.assignment[id];
        ReadAheadIsHeld(cfg, s, id, p);
      }
    }
  }

  /**
   What is enough, whatever has happened before: after any guarded run, crashes inside batches included, a
   join, leave or crash in which no surviving member gives up a partition it holds records of is safe.
   */
  lemma ReleasedMoveIsSafe(cfg: Config, partitions: nat, deadPartitions: nat, steps: seq<Step>, s: System, step: Step, more: seq<Step>, t: System)
    requires partitions >= 1 && deadPartitions >= 1
    requires GuardedRun(cfg, Start(partitions, deadPartitions), steps, s) && Releases(cfg, s, step)
    requires GuardedRun(cfg, Apply(cfg, s, step), more, t)
    ensures NothingSkipped(t) && NothingLost(cfg, t)
  {
    hide GuardedRun, Inv, Apply, Enabled, NothingLost, NothingSkipped, GivesUpNothingHeld, SafeMove;
    StartIsSafe(cfg, partitions, deadPartitions);
    RunKeeps(cfg, Start(partitions, deadPartitions), steps, s);
    ReleasingIsAllowed(cfg, s, step);
    StepKeeps(cfg, s, step);
    RunKeeps(cfg, Apply(cfg, s, step), more, t);
    InvSkipsNothing(cfg, t);
    InvLosesNothing(cfg, t);
  }

  /**
   The same in terms of what the code keeps. After any run in which members came and went only while
   the others, and on a crash they themselves, were between batches, a further join, leave or crash
   at any moment is safe if and only if no surviving member gives up a partition of which it still
   has records in its batch, or which it is about to rewind.
   */
  lemma MoveIsSafeExactlyWhenReleased(cfg: Config, partitions: nat, deadPartitions: nat, steps: seq<Step>, s: System, step: Step)
    requires partitions >= 1 && deadPartitions >= 1
    requires GentleRun(cfg, Start(partitions, deadPartitions), steps, s)
    requires Sizes(s) && Enabled(s, step) && Rebalances(step)
    ensures (forall more, t :: GuardedRun(cfg, Apply(cfg, s, step), more, t) ==> NothingSkipped(t))
      <==> GivesUpNothingHeld(s, Apply(cfg, s, step).group)
  {
    hide Apply, Height, GuardedRun, GentleRun, QuietRun, NothingSkipped, Enabled, QuietInv, Known, SafeMove, GivesUpNothingHeld;
    StartIsGentle(cfg, partitions, deadPartitions);
    GentleRunKeeps(cfg, Start(partitions, deadPartitions), steps, s);
    MoveIsSafeExactlyWhen(cfg, s, step);
    SafeMeansReleased(cfg, s, Apply(cfg, s, step).group);
  }

  // ---- a run that loses a record ----

  function First(): EventRecord { EventRecord("k", [1], map[], None) }

  function Second(): EventRecord { EventRecord("k", [2], map[], None) }

  /** Keys are hashed by their length, every record verifies, and the payload tells the signature. */
  function Plain(): Config {
    Config((key: string) => |key|,
      (value: seq<Byte>, headers: map<string, string>) => Trusted,
      (value: seq<Byte>) => Decoded("agent", Transaction(if value == [1] then "first" else "second")),
      "agent.transactions", 3)
  }

  lemma OneMember(id: string)
    ensures Rebalanced({id}, 2) == map[id := {0, 1}]
  {
    hide SortedIds;
    assert forall p :: OwnerOf({id}, p) == id;
    assert Rebalanced({id}, 2)[id] == {0, 1};
  }

  lemma SortedPair(x: string, y: string)
    requires x != y && !LexLe(y, x)
    ensures SortedIds({x, y}) == [x, y]
  {
    hide LexLe, Least;
    var ids := SortedIds({x, y});
    SortedIdsAscend({x, y});
    assert |{x, y}| == 2;
    assert ids[0] in ids && ids[1] in ids;
    assert LexLe(ids[0], ids[1]);
  }

  lemma OwnersOfPair(x: string, y: string)
    requires SortedIds({x, y}) == [x, y]
    ensures OwnerOf({x, y}, 0) == x && OwnerOf({x, y}, 1) == y
  {
  }

  lemma TwoMembers()
    ensures Rebalanced({"a", "b"}, 2) == map["a" := {0}, "b" := {1}]
  {
    assert !LexLe("b", "a");
    SortedPair("a", "b");
    OwnersOfPair("a", "b");
    var a := Rebalanced({"a", "b"}, 2);
    assert a["a"] == {0} && a["b"] == {1};
  }

  lemma TwoOthers()
    ensures Rebalanced({"b", "c"}, 2) == map["b" := {0}, "c" := {1}]
  {
    assert !LexLe("c", "b");
    SortedPair("b", "c");
    OwnersOfPair("b", "c");
    var a := Rebalanced({"b", "c"}, 2);
    assert a["b"] == {0} && a["c"] == {1};
  }

  lemma SortedThree()
    ensures SortedIds({"a", "b", "c"}) == ["a", "b", "c"]
  {
    hide SortedIds, Least;
    assert !LexLe("b", "a") && !LexLe("c", "a") && !LexLe("c", "b");
    var ids := SortedIds({"a", "b", "c"});
    SortedIdsAscend({"a", "b", "c"});
    hide LexLe;
    assert |{"a", "b", "c"}| == 3;
    assert ids[0] in ids && ids[1] in ids && ids[2] in ids;
    assert LexLe(ids[0], ids[1]) && LexLe(ids[1], ids[2]) && LexLe(ids[0], ids[2]);
    assert ids == [ids[0], ids[1], ids[2]];
  }

  lemma ThreeMembers()
    ensures Rebalanced({"a", "b", "c"}, 2) == map["a" := {0}, "b" := {1}, "c" := {}]
  {
    hide SortedIds, Least;
    SortedThree();
    var members := {"a", "b", "c"};
    assert OwnerOf(members, 0) == "a" && OwnerOf(members, 1) == "b";
    var a := Rebalanced(members, 2);
    assert a["a"] == {0} && a["b"] == {1} && a["c"] == {};
  }

  lemma OneOrBoth()
    ensures SortedNats({1}) == [1] && SortedNats({0, 1}) == [0, 1]
  {
    var both := SortedNats({0, 1});
    assert both[0] in both && both[1] in both;
  }

  lemma UnreadOfOneAndTwo(logs: TopicLogs, topic: string, position: seq<nat>)
    requires |logs| == 2 && |position| == 2 && logs[0] == [] && position[0] == 0
    ensures Unread(logs, topic, position, [1]) == Tail(logs, topic, 1, position[1])
    ensures Unread(logs, topic, position, [0, 1]) == Tail(logs, topic, 1, position[1])
  {
    hide Tail;
    var none: seq<nat> := [];
    assert Unread(logs, topic, position, none) == [];
    assert [1][..0] == none && [0][..0] == none && [0, 1][..1] == [0];
    assert Unread(logs, topic, position, [1]) == [] + Tail(logs, topic, 1, position[1]);
    assert Unread(logs, topic, position, [0]) == [] + Tail(logs, topic, 0, 0);
    assert Unread(logs, topic, position, [0, 1]) == [] + Tail(logs, topic, 1, position[1]);
  }

  /** A poll of one record by the owner of partition 1, alone or together with an empty partition 0. */
  lemma PollsPartitionOne(logs: TopicLogs, topic: string, g: Group, id: string)
    requires |logs| == 2 && g.Sized(2) && logs[0] == [] && g.position[0] == 0
    requires OwnedBy(g.assignment, id) == {1} || OwnedBy(g.assignment, id) == {0, 1}
    requires g.position[1] < |logs[1]|
    ensures Delivery(logs, topic, g, id, 1) == [ConsumedRecord(topic, 1, g.position[1], logs[1][g.position[1]])]
  {
    hide Unread, SortedNats, Tail;
    var owned := SortedNats(OwnedBy(g.assignment, id));
    var tail := Tail(logs, topic, 1, g.position[1]);
    OneOrBoth();
    UnreadOfOneAndTwo(logs, topic, g.position);
    assert Take(tail, 1) == [tail[0]];
  }

  lemma NoGentleStep(cfg: Config, s: System)
    ensures GentleRun(cfg, s, [], s)
  {
  }

  lemma GentleBefore(cfg: Config, s: System, step: Step, rest: seq<Step>, t: System) returns (steps: seq<Step>)
    requires Sizes(s) && Enabled(s, step) && Gentle(s, step) && GentleRun(cfg, Apply(cfg, s, step), rest, t)
    ensures steps == [step] + rest && GentleRun(cfg, s, steps, t)
  {
    hide Apply, Enabled, Gentle;
    steps := [step] + rest;
    assert steps[1..] == rest;
  }

  lemma OneRecordRead(g: Group, c: ConsumedRecord)
    requires g.Sized(2) && c.partition == 1
    ensures Polled(g, [c]).position == [g.position[0], g.position[1] + 1]
  {
    SliceUniform([c], 1, 0);
    SliceUniform([c], 1, 1);
  }

  /** The only member holds the first record. */
  ghost predicate FirstRead(s: System) {
    && s.logs == [[], [First()]] && s.dead == [[]] && s.sink == {} && s.handled == [{}, {}]
    && s.group == Group([0, 0], [0, 1], map["a" := {0, 1}])
    && s.members == map["a" := Working(Work(NewLocal(), [ConsumedRecord("agent.transactions", 1, 0, First())], map[], {}))]
  }

  lemma OneReads() returns (steps: seq<Step>, t: System)
    ensures GentleRun(Plain(), Start(2, 1), steps, t) && FirstRead(t)
    ensures steps == [Produce(First()), Join("a"), Poll("a", 1)]
  {
    hide Rebalanced, Delivery, GentleRun, Slice;
    var cfg := Plain();
    assert PartitionFor(cfg.hash, "k", 2) == 1;
    var s0 := Start(2, 1);
    assert s0.logs == [[], []] && s0.dead == [[]] && s0.handled == [{}, {}];
    var s1 := Apply(cfg, s0, Produce(First()));
    assert s1.logs[1] == [First()] && s1.logs[0] == [];
    assert s1.logs == [[], [First()]];
    var s2 := Apply(cfg, s1, Join("a"));
    OneMember("a");
    assert s1.group.assignment.Keys + {"a"} == {"a"};
    assert s2.group.assignment == map["a" := {0, 1}];
    PollsPartitionOne(s2.logs, cfg.topic, s2.group, "a");
    t := Apply(cfg, s2, Poll("a", 1));
    OneRecordRead(s2.group, ConsumedRecord(cfg.topic, 1, 0, First()));
    assert t.group.position == [0, 1] && t.group.committed == [0, 0];
    NoGentleStep(cfg, t);
    steps := GentleBefore(cfg, s2, Poll("a", 1), [], t);
    steps := GentleBefore(cfg, s1, Join("a"), steps, t);
    steps := GentleBefore(cfg, s0, Produce(First()), steps, t);
  }

  lemma Before(cfg: Config, s: System, step: Step, rest: seq<Step>, t: System) returns (steps: seq<Step>)
    requires Sizes(s) && Enabled(s, step) && Run(cfg, Apply(cfg, s, step), rest, t)
    ensures steps == [step] + rest && Run(cfg, s, steps, t)
  {
    hide Apply, Enabled;
    OneStep(cfg, s, step);
    RunsCompose(cfg, s, [step], Apply(cfg, s, step), rest, t);
    steps := [step] + rest;
  }

  /** One member holds the first record; the other owns the partition. */
  ghost predicate Handover(s: System) {
    && s.logs == [[], [First()]] && s.dead == [[]] && s.sink == {} && |s.handled| == 2
    && s.group == Group([0, 0], [0, 1], map["a" := {0}, "b" := {1}])
    && s.members.Keys == {"a", "b"} && s.members["a"].Working? && s.members["b"] == Resting(NewLocal())
  }

  /**
   The read position is not reset when a partition passes to another member: on a join, partition 1
   keeps its position 1 although 0 is committed.
   */
  lemma JoinKeepsPosition()
    ensures var g := Group([0, 0], [0, 1], map["a" := {0, 1}]);
      && Dealt(g) && JoinGroup(g, "b") == Group([0, 0], [0, 1], map["a" := {0}, "b" := {1}])
      && !ReassignedAreRewound(g, JoinGroup(g, "b"))
  {
    hide Rebalanced;
    OneMember("a");
    TwoMembers();
    var g := Group([0, 0], [0, 1], map["a" := {0, 1}]);
    assert g.assignment.Keys == {"a"} && g.assignment.Keys + {"b"} == {"a", "b"};
    var g' := JoinGroup(g, "b");
    var p: nat := 1;
    assert p in g'.assignment["b"] && p !in OwnedBy(g.assignment, "b") && g'.position[p] != g'.committed[p];
  }

  lemma OtherJoins(s: System) returns (steps: seq<Step>, t: System)
    requires FirstRead(s)
    ensures Run(Plain(), s, steps, t) && Handover(t) && steps == [Join("b")]
  {
    hide Run, Rebalanced;
    JoinKeepsPosition();
    t := Apply(Plain(), s, Join("b"));
    NoStep(Plain(), t);
    steps := Before(Plain(), s, Join("b"), [], t);
  }

  /** The newcomer holds the second record. */
  ghost predicate ReadAhead(s: System) {
    && s.logs == [[], [First(), Second()]] && s.dead == [[]] && s.sink == {} && |s.handled| == 2
    && s.group.Sized(2) && s.group.committed == [0, 0] && s.group.assignment.Keys == {"a", "b"}
    && s.members.Keys == {"a", "b"}
    && s.members["b"] == Working(Work(NewLocal(), [ConsumedRecord("agent.transactions", 1, 1, Second())], map[], {}))
  }

  lemma OtherReads(s: System) returns (steps: seq<Step>, t: System)
    requires Handover(s)
    ensures Run(Plain(), s, steps, t) && ReadAhead(t)
    ensures steps == [Produce(Second()), Poll("b", 1)]
  {
    hide Rebalanced, Delivery, Run, Slice;
    var cfg := Plain();
    assert PartitionFor(cfg.hash, "k", 2) == 1;
    var s1 := Apply(cfg, s, Produce(Second()));
    assert s1.logs[1] == [First(), Second()] && s1.logs[0] == [];
    assert s1.logs == [[], [First(), Second()]];
    PollsPartitionOne(s1.logs, cfg.topic, s1.group, "b");
    t := Apply(cfg, s1, Poll("b", 1));
    NoStep(cfg, t);
    steps := Before(cfg, s1, Poll("b", 1), [], t);
    steps := Before(cfg, s, Produce(Second()), steps, t);
  }

  lemma FirstIsLost(t: System)
    requires t.logs == [[], [First(), Second()]] && t.dead == [[]] && t.sink == {"second"}
    requires Sizes(t) && t.group.committed == [0, 2]
    ensures !NothingLost(Plain(), t)
  {
    assert t.logs[1][0] == First();
    assert Genuine(Plain(), First()) == Some(Transaction("first"));
    assert !AccountedFor(Plain(), t.sink, t.dead, t.logs[1][0]);
  }

  lemma OtherCommits(s: System) returns (steps: seq<Step>, t: System)
    requires ReadAhead(s)
    ensures Run(Plain(), s, steps, t) && !NothingLost(Plain(), t)
    ensures steps == [Handle("b", Returned), Commit("b"), Crash("a")]
  {
    hide Rebalanced, Run, NothingLost;
    var cfg := Plain();
    var s1 := Apply(cfg, s, Handle("b", Returned));
    assert s1.sink == {"second"} && s1.members["b"].work.frontier == map[1 := 2];
    var s2 := Apply(cfg, s1, Commit("b"));
    assert s2.group.committed == [0, 2];
    t := Apply(cfg, s2, Crash("a"));
    FirstIsLost(t);
    NoStep(cfg, t);
    steps := Before(cfg, s2, Crash("a"), [], t);
    steps := Before(cfg, s1, Commit("b"), steps, t);
    steps := Before(cfg, s, Handle("b", Returned), steps, t);
  }

  /**
   The guarantee fails without the guard. A member reads a record; another joins and is given its
   partition with the read position as it stands; the newcomer reads, processes and commits the
   next record; the first member crashes. The first record is committed, and no one has it: its
   signature is not in the sink and the dead-letter topic is empty.
   */
  lemma RecordIsLost() returns (steps: seq<Step>, t: System)
    ensures Run(Plain(), Start(2, 1), steps, t) && !NothingLost(Plain(), t)
    ensures steps == [Produce(First()), Join("a"), Poll("a", 1), Join("b"), Produce(Second()),
                      Poll("b", 1), Handle("b", Returned), Commit("b"), Crash("a")]
  {
    hide Run, NothingLost, Apply;
    var first, u := OneReads();
    GentleRunIsRun(Plain(), Start(2, 1), first, u);
    var second, v := OtherJoins(u);
    var third, w := OtherReads(v);
    var fourth;
    fourth, t := OtherCommits(w);
    RunsCompose(Plain(), Start(2, 1), first, u, second, v);
    RunsCompose(Plain(), Start(2, 1), first + second, v, third, w);
    RunsCompose(Plain(), Start(2, 1), first + second + third, w, fourth, t);
    steps := first + second + third + fourth;
  }

  /** Nor on a leave: the leaver's partition 0 is rolled back, but partition 1 passes on as it was read. */
  lemma LeaveKeepsPosition()
    ensures var g := Group([0, 0], [1, 1], map["a" := {0}, "b" := {1}, "c" := {}]);
      && Dealt(g) && LeaveGroup(g, "a") == Group([0, 0], [0, 1], map["b" := {0}, "c" := {1}])
      && !ReassignedAreRewound(g, LeaveGroup(g, "a"))
  {
    hide Rebalanced;
    ThreeMembers();
    TwoOthers();
    var g := Group([0, 0], [1, 1], map["a" := {0}, "b" := {1}, "c" := {}]);
    assert g.assignment.Keys == {"a", "b", "c"} && g.assignment.Keys - {"a"} == {"b", "c"};
    var g' := LeaveGroup(g, "a");
    assert g'.position == [0, 1];
    var p: nat := 1;
    assert p in g'.assignment["c"] && p !in OwnedBy(g.assignment, "c") && g'.position[p] != g'.committed[p];
  }

  lemma NobodyIsDealt()
    ensures Rebalanced({}, 2) == map[]
  {
  }

  /** A member is killed inside a batch, after handling its one record. */
  lemma HandledThenKilled() returns (steps: seq<Step>, t: System)
    ensures steps == [Produce(First()), Join("a"), Poll("a", 1), Handle("a", Returned), Crash("a")]
    ensures QuietRun(Plain(), Start(2, 1), steps, t)
    ensures t.logs == [[], [First()]] && t.dead == [[]] && t.handled == [{}, {0}]
    ensures t.group == Group([0, 0], [0, 0], map[]) && t.members == map[]
  {
    hide GentleRun, QuietRun, GentleInv, Rebalanced;
    var cfg := Plain();
    var first, s := OneReads();
    StartIsGentle(cfg, 2, 1);
    GentleRunKeeps(cfg, Start(2, 1), first, s);
    var s1 := Apply(cfg, s, Handle("a", Returned));
    assert |s1.handled| == 2 && s1.handled[0] == {} && s1.handled[1] == {} + {0} == {0};
    assert s1.handled == [{}, {0}];
    QuietThenOne(cfg, Start(2, 1), first, s, Handle("a", Returned));
    t := Apply(cfg, s1, Crash("a"));
    assert t.group.position == [0, 0] && t.members == map[];
    NobodyIsDealt();
    assert s1.group.assignment.Keys - {"a"} == {};
    QuietThenOne(cfg, Start(2, 1), first + [Handle("a", Returned)], s1, Crash("a"));
    steps := first + [Handle("a", Returned)] + [Crash("a")];
  }

  /** When it is back, it reads the record again. */
  lemma ReadAgain() returns (steps: seq<Step>, t: System)
    ensures QuietRun(Plain(), Start(2, 1), steps, t)
    ensures t.logs == [[], [First()]] && t.dead == [[]] && t.handled == [{}, {0}]
    ensures t.group == Group([0, 0], [0, 1], map["a" := {0, 1}])
    ensures t.members == map["a" := Working(Work(NewLocal(), [ConsumedRecord("agent.transactions", 1, 0, First())], map[], {}))]
  {
    hide QuietRun, Rebalanced, Delivery, Slice;
    var cfg := Plain();
    var before, s := HandledThenKilled();
    var s1 := Apply(cfg, s, Join("a"));
    OneMember("a");
    assert s.group.assignment.Keys + {"a"} == {"a"};
    assert s1.group.assignment == map["a" := {0, 1}];
    QuietThenOne(cfg, Start(2, 1), before, s, Join("a"));
    PollsPartitionOne(s1.logs, cfg.topic, s1.group, "a");
    t := Apply(cfg, s1, Poll("a", 1));
    OneRecordRead(s1.group, ConsumedRecord(cfg.topic, 1, 0, First()));
    QuietThenOne(cfg, Start(2, 1), before + [Join("a")], s1, Poll("a", 1));
    steps := before + [Join("a")] + [Poll("a", 1)];
  }

  /**
   After such a crash the checkable guard is still enough, but no longer needed: the member gives up a
   partition with a record in its batch, and the move is safe, because that record was handled before.
   */
  lemma HeldMoveCanBeSafe() returns (steps: seq<Step>, s: System)
    ensures QuietRun(Plain(), Start(2, 1), steps, s) && Sizes(s) && Enabled(s, Join("b"))
    ensures var g' := Apply(Plain(), s, Join("b")).group;
      SafeMove(s, g') && !GivesUpNothingHeld(s, g')
  {
    hide QuietRun, Height, Rebalanced;
    steps, s := ReadAgain();
    JoinKeepsPosition();
    HeightIs(0);
    HeightIs(1);
    assert Below(0) == {} && Below(1) == {0};
    assert Heights(s) == [0, 1];
    var p: nat := 1;
    assert p in s.group.assignment["a"] && Holds(s.members["a"], p);
  }
}
