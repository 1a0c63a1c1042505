/**
 Runs in which nobody who stays in the group gives up a partition that it still holds records of.
 The guard names only what the code keeps - the assignment and the members' batches - so it can be
 checked before a join, a leave or a crash is let happen; and under it nothing is lost, whoever has
 been killed inside a batch before.
 */
module ReleasingRuns {
  import opened BrokerModel
  import opened ConsumerModel
  import opened Protocol
  import opened QuietRuns

  /** The member may still have to handle a record of the partition that it has read. */
  predicate Holds(m: Member, p: nat) {
    match m
    case Resting(_) => false
    case Working(w) => p in w.seekBack || Slice(w.pending, p) != []
    case Rewinding(_, seekBack) => p in seekBack
  }

  /** No surviving member gives up a partition of which it still holds records. */
  ghost predicate GivesUpNothingHeld(s: System, g': Group) {
    forall id, p ::
      id in s.group.assignment && id in s.members && id in g'.assignment && p in s.group.assignment[id] && p !in g'.assignment[id]
      ==> !Holds(s.members[id], p)
  }

  ghost predicate Releases(cfg: Config, s: System, step: Step) {
    Sizes(s) && Enabled(s, step) && (Rebalances(step) ==> GivesUpNothingHeld(s, Apply(cfg, s, step).group))
  }

  /** A partition whose owner holds nothing of it has not been read beyond what is handled. */
  lemma UnheldIsHandled(cfg: Config, s: System, id: string, p: nat)
    requires Inv(cfg, s) && id in s.group.assignment && p in s.group.assignment[id]
    ensures p < |s.logs| && id in s.members
    ensures !Holds(s.members[id], p) ==> s.group.position[p] <= Heights(s)[p]
  {
    hide AccountedFor, MemberSafe, SinkGenuine, HandledAccounted, Routed, Gapless, Height, Slice, Rebalanced;
    OwnerIsUnique(s.group.assignment, |s.logs|, id, p);
    if s.group.position[p] > Heights(s)[p] {
      var o :| CoveredBy(s, p, o);
      OwnerIsUnique(s.group.assignment, |s.logs|, o, p);
    }
  }

  /** Such a step meets the guard of the safety theorem. */
  lemma ReleasingIsAllowed(cfg: Config, s: System, step: Step)
    requires Inv(cfg, s) && Releases(cfg, s, step)
    ensures Allowed(cfg, s, step)
  {
    hide Inv, Apply, Height, Holds, Enabled;
    if Rebalances(step) {
      var g' := Apply(cfg, s, step).group;
      forall p: nat | p < |s.logs| && ChangesHands(s.group, g', p) ensures s.group.position[p] <= Heights(s)[p] {
        var id :| id in s.group.assignment && id in g'.assignment && p in s.group.assignment[id] && p !in g'.assignment[id];
        UnheldIsHandled(cfg, s, id, p);
      }
    }
  }

  ghost predicate ReleasingRun(cfg: Config, s: System, steps: seq<Step>, t: System)
    decreases |steps|
  {
    if steps == [] then s == t
    else Releases(cfg, s, steps[0]) && ReleasingRun(cfg, Apply(cfg, s, steps[0]), steps[1..], t)
  }

  lemma {:induction false} ReleasingRunIsGuarded(cfg: Config, s: System, steps: seq<Step>, t: System)
    requires Inv(cfg, s) && ReleasingRun(cfg, s, steps, t)
    ensures GuardedRun(cfg, s, steps, t)
    decreases |steps|
  {
    hide Inv, Apply, SafeMove, Enabled, GivesUpNothingHeld;
    if steps != [] {
      ReleasingIsAllowed(cfg, s, steps[0]);
      StepKeeps(cfg, s, steps[0]);
      ReleasingRunIsGuarded(cfg, Apply(cfg, s, steps[0]), steps[1..], t);
    }
  }

  /**
   At least once, under the guard that can be checked: in every run from an empty bus in which no
   surviving member ever gives up a partition it holds records of, whoever is killed and whenever,
   every record below a committed offset is in the sink or the dead-letter topic.
   */
  lemma ReleasingLosesNothing(cfg: Config, partitions: nat, deadPartitions: nat, steps: seq<Step>, t: System)
    requires partitions >= 1 && deadPartitions >= 1
    requires ReleasingRun(cfg, Start(partitions, deadPartitions), steps, t)
    ensures GuardedRun(cfg, Start(partitions, deadPartitions), steps, t) && NothingLost(cfg, t)
  {
    hide ReleasingRun, GuardedRun;
    StartIsSafe(cfg, partitions, deadPartitions);
    ReleasingRunIsGuarded(cfg, Start(partitions, deadPartitions), steps, t);
    AtLeastOnce(cfg, partitions, deadPartitions, steps, t);
  }

  /** A join, leave or crash while all others are between cycles gives up nothing held. */
  lemma QuietReleases(cfg: Config, s: System, step: Step)
    requires Sizes(s) && Enabled(s, step) && Quiet(s, step)
    ensures Releases(cfg, s, step)
  {
    hide Rebalanced;
  }

  /** So the guard asks for less than quiet runs do. */
  lemma {:induction false} QuietRunReleases(cfg: Config, s: System, steps: seq<Step>, t: System)
    requires QuietRun(cfg, s, steps, t)
    ensures ReleasingRun(cfg, s, steps, t)
    decreases |steps|
  {
    hide Apply, Enabled, Quiet, Releases;
    if steps != [] {
      QuietReleases(cfg, s, steps[0]);
      QuietRunReleases(cfg, Apply(cfg, s, steps[0]), steps[1..], t);
    }
  }
}
