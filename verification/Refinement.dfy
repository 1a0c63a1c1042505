/** The consumer's cycle, as its class runs it, is a run of the protocol's steps. */
module Refinement {
  import opened Prelude
  import opened EventTypes
  import opened BrokerModel
  import opened ConsumerModel
  import opened CycleLaws
  import opened DrainLaws
  import opened Protocol
  import opened QuietRuns
  import opened UnsafeMoves
  import Consumer

  /** The system is in the state that a session sees, and the session's consumer is between cycles. */
  ghost predicate Shows(y: System, s: Session) {
    && Sizes(y) && y.logs == s.logs && y.dead == s.dead && y.group == s.group
    && (if s.id in y.members then y.members[s.id] == Resting(s.local) else s.local == NewLocal() && !s.joined)
  }

  predicate IsOwn(step: Step, id: string) {
    match step
    case Join(i) => i == id
    case Poll(i, _) => i == id
    case Handle(i, _) => i == id
    case Commit(i) => i == id
    case Seek(i) => i == id
    case _ => false
  }

  /** Steps that the consumer itself takes: no one else moves, nothing is produced, and nobody leaves or crashes. */
  ghost predicate OwnSteps(steps: seq<Step>, id: string) {
    forall step :: step in steps ==> IsOwn(step, id)
  }

  lemma OwnBoth(a: seq<Step>, b: seq<Step>, id: string)
    requires OwnSteps(a, id) && OwnSteps(b, id)
    ensures OwnSteps(a + b, id)
  {
  }

  lemma OwnFirst(step: Step, steps: seq<Step>, id: string)
    requires IsOwn(step, id) && OwnSteps(steps, id)
    ensures OwnSteps([step] + steps, id)
  {
  }

  // ---- what the steps of a run come to ----

  /** Records handled in some way, and how many of them were processed, dead-lettered and put back for a retry. */
  datatype Outturn = Outturn(handled: nat, processed: nat, deadLettered: nat, retried: nat) {
    function Plus(o: Outturn): Outturn {
      Outturn(handled + o.handled, processed + o.processed, deadLettered + o.deadLettered, retried + o.retried)
    }
  }

  function Nothing(): Outturn { Outturn(0, 0, 0, 0) }

  ghost function StepOutturn(cfg: Config, s: System, step: Step): Outturn {
    if step.Handle? && Enabled(s, step) then
      match HandleNext(cfg, s.members[step.id].work, step.outcome).fate
      case Skipped => Outturn(1, 0, 0, 0)
      case Retried => Outturn(1, 0, 0, 1)
      case Processed => Outturn(1, 1, 0, 0)
      case Quarantined(_) => Outturn(1, 0, 1, 0)
    else Nothing()
  }

  /** What the records handled over a run became. */
  ghost function OutturnOf(cfg: Config, s: System, steps: seq<Step>): Outturn
    decreases |steps|
  {
    if steps == [] || !Sizes(s) || !Enabled(s, steps[0]) then Nothing()
    else StepOutturn(cfg, s, steps[0]).Plus(OutturnOf(cfg, Apply(cfg, s, steps[0]), steps[1..]))
  }

  lemma OutturnFirst(cfg: Config, s: System, step: Step, steps: seq<Step>)
    requires Sizes(s) && Enabled(s, step)
    ensures OutturnOf(cfg, s, [step] + steps) == StepOutturn(cfg, s, step).Plus(OutturnOf(cfg, Apply(cfg, s, step), steps))
  {
    hide Apply, Enabled, StepOutturn;
    assert ([step] + steps)[1..] == steps;
  }

  lemma NoOutturn(cfg: Config, s: System, step: Step)
    ensures OutturnOf(cfg, s, []) == Nothing()
    ensures !step.Handle? ==> StepOutturn(cfg, s, step) == Nothing()
  {
  }

  lemma {:induction false} OutturnsAdd(cfg: Config, s: System, a: seq<Step>, t: System, b: seq<Step>)
    requires Run(cfg, s, a, t)
    ensures OutturnOf(cfg, s, a + b) == OutturnOf(cfg, s, a).Plus(OutturnOf(cfg, t, b))
    decreases |a|
  {
    hide Apply, Enabled, StepOutturn, OutturnOf;
    if a == [] {
      assert a + b == b;
      NoOutturn(cfg, s, Seek(""));
    } else {
      assert a == [a[0]] + a[1..] && a + b == [a[0]] + (a[1..] + b);
      OutturnFirst(cfg, s, a[0], a[1..]);
      OutturnFirst(cfg, s, a[0], a[1..] + b);
      OutturnsAdd(cfg, Apply(cfg, s, a[0]), a[1..], t, b);
    }
  }

  /** The system while the session's consumer works on a batch, from dead-letter logs `dead`. */
  ghost predicate ShowsCycle(y: System, cfg: Config, id: string, logs: TopicLogs, dead: TopicLogs, g: Group, cy: Cycle) {
    && Sizes(y) && y.logs == logs && |dead| >= 1 && y.dead == AppendAll(dead, cfg.hash, cy.letters) && y.group == g
    && id in y.members && y.members[id] == Working(cy.work)
  }

  /** The counters of a cycle under way. */
  function CycleOutturn(cy: Cycle): Outturn { Outturn(0, cy.processed, cy.deadLettered, cy.retried) }

  lemma StepIsAStep(y: System, cfg: Config, proc: Processor, id: string, logs: TopicLogs, dead: TopicLogs, g: Group, cy: Cycle)
    requires ShowsCycle(y, cfg, id, logs, dead, g, cy) && cy.work.pending != []
    ensures var step := Handle(id, AnswerTo(cfg, proc, cy));
      && Enabled(y, step) && ShowsCycle(Apply(cfg, y, step), cfg, id, logs, dead, g, CycleStep(cfg, proc, cy))
  {
    hide HandleNext, CallsProcessor, Append;
    var a := HandleNext(cfg, cy.work, AnswerTo(cfg, proc, cy));
    if a.fate.Quarantined? { Consumer.AppendedOne(dead, cfg.hash, cy.letters, a.fate.letter); }
  }

  lemma NextSizes(y: System, cfg: Config, id: string, logs: TopicLogs, dead: TopicLogs, g: Group, cy: Cycle)
    requires ShowsCycle(y, cfg, id, logs, dead, g, cy)
    ensures Sizes(y) && id in y.members && y.members[id] == Working(cy.work)
  {
  }

  lemma StepShortens(cfg: Config, proc: Processor, cy: Cycle)
    requires cy.work.pending != []
    ensures |CycleStep(cfg, proc, cy).work.pending| + 1 == |cy.work.pending|
    ensures Finish(cfg, proc, cy) == Finish(cfg, proc, CycleStep(cfg, proc, cy))
  {
  }

  lemma StepCountsOutturn(y: System, cfg: Config, proc: Processor, id: string, cy: Cycle)
    requires cy.work.pending != [] && id in y.members && y.members[id] == Working(cy.work)
    ensures StepOutturn(cfg, y, Handle(id, AnswerTo(cfg, proc, cy))).Plus(CycleOutturn(cy))
      == CycleOutturn(CycleStep(cfg, proc, cy)).Plus(Outturn(1, 0, 0, 0))
  {
    hide HandleNext, CallsProcessor, AnswerTo;
  }

  lemma {:induction false} BatchIsARun(y: System, cfg: Config, proc: Processor, id: string, logs: TopicLogs, dead: TopicLogs, g: Group, cy: Cycle)
    returns (steps: seq<Step>, t: System)
    requires ShowsCycle(y, cfg, id, logs, dead, g, cy)
    ensures Run(cfg, y, steps, t) && Calm(steps) && OwnSteps(steps, id) && ShowsCycle(t, cfg, id, logs, dead, g, Finish(cfg, proc, cy))
    ensures OutturnOf(cfg, y, steps).Plus(CycleOutturn(cy))
      == CycleOutturn(Finish(cfg, proc, cy)).Plus(Outturn(|cy.work.pending|, 0, 0, 0))
    decreases |cy.work.pending|
  {
    hide Run, Apply, Enabled, ShowsCycle, CycleStep, Calm, OutturnOf, StepOutturn;
    NoOutturn(cfg, y, Seek(id));
    if cy.work.pending == [] {
      steps, t := [], y;
      NoStep(cfg, y);
    } else {
      var step := Handle(id, AnswerTo(cfg, proc, cy));
      StepIsAStep(y, cfg, proc, id, logs, dead, g, cy);
      NextSizes(y, cfg, id, logs, dead, g, cy);
      StepCountsOutturn(y, cfg, proc, id, cy);
      var next := CycleStep(cfg, proc, cy);
      StepShortens(cfg, proc, cy);
      steps, t := BatchIsARun(Apply(cfg, y, step), cfg, proc, id, logs, dead, g, next);
      Prepend(cfg, y, step, steps, t);
      OwnFirst(step, steps, id);
      OutturnFirst(cfg, y, step, steps);
      steps := [step] + steps;
    }
  }

  lemma NothingMore(o: Outturn)
    ensures o.Plus(Nothing()) == o
  {
  }

  lemma OutturnUnfolds(cfg: Config, s: System, steps: seq<Step>)
    requires steps != [] && Sizes(s) && Enabled(s, steps[0])
    ensures OutturnOf(cfg, s, steps) == StepOutturn(cfg, s, steps[0]).Plus(OutturnOf(cfg, Apply(cfg, s, steps[0]), steps[1..]))
  {
  }

  lemma StuckHandlesNothing(cfg: Config, s: System, steps: seq<Step>)
    requires steps != [] && !(Sizes(s) && Enabled(s, steps[0]))
    ensures OutturnOf(cfg, s, steps) == Nothing()
  {
    hide Enabled, StepOutturn;
  }

  ghost predicate HandlesNothing(steps: seq<Step>) {
    forall i :: 0 <= i < |steps| ==> !steps[i].Handle?
  }

  lemma RestHandlesNothing(steps: seq<Step>)
    requires HandlesNothing(steps) && steps != []
    ensures !steps[0].Handle? && HandlesNothing(steps[1..])
  {
  }

  /** Without a `Handle` step nothing is handled. */
  lemma {:induction false} NothingHandled(cfg: Config, s: System, steps: seq<Step>)
    requires HandlesNothing(steps)
    ensures OutturnOf(cfg, s, steps) == Nothing()
    decreases |steps|
  {
    hide *;
    if steps == [] {
      NoOutturn(cfg, s, Join(""));
    } else if Sizes(s) && Enabled(s, steps[0]) {
      RestHandlesNothing(steps);
      OutturnUnfolds(cfg, s, steps);
      NoOutturn(cfg, s, steps[0]);
      NothingHandled(cfg, Apply(cfg, s, steps[0]), steps[1..]);
      NothingMore(Nothing());
    } else {
      StuckHandlesNothing(cfg, s, steps);
    }
  }

  lemma JoinIsAStep(y: System, cfg: Config, s: Session) returns (steps: seq<Step>, t: System)
    requires Shows(y, s)
    ensures Run(cfg, y, steps, t) && Shows(t, Joined(s)) && OwnSteps(steps, s.id) && (s.joined ==> Calm(steps))
    ensures OutturnOf(cfg, y, steps) == Nothing()
  {
    hide Run, Rebalanced, OutturnOf;
    if s.joined {
      steps, t := [], y;
      NoStep(cfg, y);
    } else {
      t := Apply(cfg, y, Join(s.id));
      NoStep(cfg, t);
      steps := Before(cfg, y, Join(s.id), [], t);
    }
    NothingHandled(cfg, y, steps);
  }

  /** The figures of a report, in the order of an outturn. */
  function ReportOutturn(r: Result<ConsumeReport, BrokerError>): Outturn {
    if r.Ok? then Outturn(r.value.polled, r.value.processed, r.value.deadLettered, r.value.retried) else Nothing()
  }

  /** What follows a poll that delivered something: the batch is handled, then committed, then rewound. */
  lemma WorkIsARun(y: System, cfg: Config, proc: Processor, id: string, logs: TopicLogs, dead: TopicLogs, g: Group, start: Cycle)
    returns (steps: seq<Step>, t: System)
    requires ShowsCycle(y, cfg, id, logs, dead, g, start)
    ensures var end := Finish(cfg, proc, start);
      && Run(cfg, y, steps, t) && Calm(steps) && OwnSteps(steps, id)
      && Sizes(t) && t.logs == logs && t.dead == AppendAll(dead, cfg.hash, end.letters) && t.group == Settle(g, end.work)
      && id in t.members && t.members[id] == Resting(end.work.local)
      && OutturnOf(cfg, y, steps).Plus(CycleOutturn(start)) == CycleOutturn(end).Plus(Outturn(|start.work.pending|, 0, 0, 0))
  {
    hide Run, Rebalanced, Finish, AppendAll, Calm, OutturnOf, StepOutturn;
    var a, v := BatchIsARun(y, cfg, proc, id, logs, dead, g, start);
    var w := Apply(cfg, v, Commit(id));
    t := Apply(cfg, w, Seek(id));
    NoStep(cfg, t);
    Prepend(cfg, w, Seek(id), [], t);
    Prepend(cfg, v, Commit(id), [Seek(id)] + [], t);
    var last := [Commit(id)] + ([Seek(id)] + []);
    RunsCompose(cfg, y, a, v, last, t);
    CalmBoth(a, last);
    NothingHandled(cfg, v, last);
    OutturnsAdd(cfg, y, a, v, last);
    steps := a + last;
  }

  lemma NoneInNothing()
    ensures forall p: nat :: Slice([], p) == []
  {
  }

  /** A poll is one step, after which the system shows the batch, if there is one. */
  lemma PollIsAStep(y: System, cfg: Config, s: Session, max: int)
    requires s.Valid() && s.joined && Shows(y, s) && OwnedBy(s.group.assignment, s.id) != {}
    ensures forall p :: p in OwnedBy(s.group.assignment, s.id) ==> p < |s.group.position|
    ensures var batch := Delivery(s.logs, cfg.topic, s.group, s.id, max);
      && Enabled(y, Poll(s.id, max))
      && var u := Apply(cfg, y, Poll(s.id, max));
      if batch == [] then Shows(u, s)
      else ShowsCycle(u, cfg, s.id, s.logs, s.dead, Polled(s.group, batch), NewCycle(s.local, batch, s.calls))
  {
    hide Rebalanced, Delivery, AppendAll, Slice;
    ConsumerModel.OwnedInRange(s, s.id);
    Consumer.AppendedNone(s.dead, cfg.hash);
    if Delivery(s.logs, cfg.topic, s.group, s.id, max) == [] {
      assert Polled(s.group, []).position == s.group.position by { NoneInNothing(); }
    }
  }

  /** What a cycle that polled something comes to. */
  lemma ConsumeSettles(cfg: Config, proc: Processor, s0: Session, max: int)
    requires s0.Valid() && OwnedBy(Joined(s0).group.assignment, s0.id) != {}
    ensures var s := Joined(s0);
      && s.Valid() && (forall p :: p in OwnedBy(s.group.assignment, s.id) ==> p < |s.group.position|)
      && var batch := Delivery(s.logs, cfg.topic, s.group, s.id, max);
      var end := Finish(cfg, proc, NewCycle(s.local, batch, s.calls));
      batch != [] ==>
        Consume(cfg, proc, s0, max) == (
          s.(dead := AppendAll(s.dead, cfg.hash, end.letters), group := Settle(Polled(s.group, batch), end.work),
             local := end.work.local, calls := end.calls),
          Ok(ConsumeReport(|batch|, end.processed, end.deadLettered, end.retried, end.work.frontier)))
  {
    hide OwnerOf, Delivery, Finish, AppendAll, Settle, Slice;
  }

  lemma PollIsARun(y: System, cfg: Config, proc: Processor, s0: Session, s: Session, max: int) returns (steps: seq<Step>, t: System)
    requires s0.Valid() && s == Joined(s0) && s.joined && Shows(y, s) && OwnedBy(s.group.assignment, s.id) != {}
    ensures Run(cfg, y, steps, t) && Shows(t, Consume(cfg, proc, s0, max).0) && Calm(steps) && OwnSteps(steps, s.id)
    ensures OutturnOf(cfg, y, steps) == ReportOutturn(Consume(cfg, proc, s0, max).1)
  {
    hide Run, Rebalanced, Delivery, Finish, AppendAll, Consume, Calm, OutturnOf, StepOutturn, Settle, Polled, Apply, Enabled, OwnedBy, ShowsCycle;
    Consumer.ConsumeCases(cfg, proc, s0, max);
    ConsumeSettles(cfg, proc, s0, max);
    PollIsAStep(y, cfg, s, max);
    var step := Poll(s.id, max);
    var batch := Delivery(s.logs, cfg.topic, s.group, s.id, max);
    var work: seq<Step> := [];
    var u := Apply(cfg, y, step);
    t := u;
    NoStep(cfg, t);
    NoOutturn(cfg, t, step);
    if batch != [] {
      work, t := WorkIsARun(u, cfg, proc, s.id, s.logs, s.dead, Polled(s.group, batch), NewCycle(s.local, batch, s.calls));
    }
    NoOutturn(cfg, y, step);
    OutturnFirst(cfg, y, step, work);
    Prepend(cfg, y, step, work, t);
    OwnFirst(step, work, s.id);
    steps := [step] + work;
  }

  /**
   Whatever `consume` does, the protocol can do in one run of this consumer's own steps: poll, handle,
   commit and seek, after a join if need be. Its report counts what the records handled in the run became.
   */
  lemma ConsumeIsARun(y: System, cfg: Config, proc: Processor, s: Session, max: int) returns (steps: seq<Step>, t: System)
    requires s.Valid() && Shows(y, s)
    ensures Run(cfg, y, steps, t) && Shows(t, Consume(cfg, proc, s, max).0) && OwnSteps(steps, s.id) && (s.joined ==> Calm(steps))
    ensures OutturnOf(cfg, y, steps) == ReportOutturn(Consume(cfg, proc, s, max).1)
  {
    hide Run, Rebalanced, Delivery, Finish, AppendAll, Settle, Consume, Shows, Calm, OutturnOf;
    var first, u := JoinIsAStep(y, cfg, s);
    Consumer.ConsumeCases(cfg, proc, s, max);
    var s1 := Joined(s);
    if OwnedBy(s1.group.assignment, s1.id) == {} {
      steps, t := first, u;
    } else {
      var second;
      second, t := PollIsARun(u, cfg, proc, s, s1, max);
      RunsCompose(cfg, y, first, u, second, t);
      OutturnsAdd(cfg, y, first, u, second);
      if s.joined { CalmBoth(first, second); }
      OwnBoth(first, second, s.id);
      steps := first + second;
    }
  }

  lemma StaysJoined(cfg: Config, proc: Processor, s: Session, max: int)
    requires s.Valid()
    ensures Consume(cfg, proc, s, max).0.joined && Consume(cfg, proc, s, max).0.id == s.id
  {
    hide Rebalanced, Delivery, Finish, AppendAll, Settle;
  }

  /** A cycle that polled nothing reports nothing. */
  lemma NothingFromNothing(cfg: Config, proc: Processor, s: Session, max: int)
    requires s.Valid()
    ensures var r := Consume(cfg, proc, s, max).1;
      r.Ok? && r.value.polled == 0 ==> ReportOutturn(r) == Nothing()
  {
    hide Rebalanced, Delivery, Finish, AppendAll, Settle, Consume;
    Consumer.ConsumeCases(cfg, proc, s, max);
  }

  /** So is a whole drain; and the figures of its report are what the records handled in that run became. */
  lemma {:induction false} DrainIsARun(y: System, cfg: Config, proc: Processor, s: Session, max: int, rounds: nat, acc: ConsumeReport)
    returns (steps: seq<Step>, t: System)
    requires s.Valid() && Shows(y, s)
    ensures Run(cfg, y, steps, t) && Shows(t, Drain(cfg, proc, s, max, rounds, acc).0) && OwnSteps(steps, s.id) && (s.joined ==> Calm(steps))
    ensures var r := Drain(cfg, proc, s, max, rounds, acc).1;
      r.Ok? ==> OutturnOf(cfg, y, steps).Plus(ReportOutturn(Ok(acc))) == ReportOutturn(r)
    decreases rounds
  {
    hide Run, Rebalanced, Consume, Shows, Calm, OutturnOf;
    NoOutturn(cfg, y, Seek(s.id));
    if rounds == 0 {
      steps, t := [], y;
      NoStep(cfg, y);
    } else {
      steps, t := ConsumeIsARun(y, cfg, proc, s, max);
      var (s1, r) := Consume(cfg, proc, s, max);
      NothingFromNothing(cfg, proc, s, max);
      if r.Ok? && r.value.polled != 0 && !DidNothing(r.value) {
        var more, u := DrainIsARun(t, cfg, proc, s1, max, rounds - 1, AddReport(acc, r.value));
        RunsCompose(cfg, y, steps, t, more, u);
        OutturnsAdd(cfg, y, steps, t, more);
        StaysJoined(cfg, proc, s, max);
        if s.joined { CalmBoth(steps, more); }
        OwnBoth(steps, more, s.id);
        steps, t := steps + more, u;
      }
    }
  }

  /**
   What the laws of a cycle and of a drain take for granted is so on every quiet run: a consumer
   between cycles, whose joining (if it has yet to) would disturb nobody's batch, is ready for the
   next cycle and its retry counters are within bounds.
   */
  lemma QuietMemberIsReady(cfg: Config, y: System, s: Session)
    requires QuietInv(cfg, y) && Shows(y, s) && (s.joined || OthersRest(y, s.id))
    ensures Ready(s) && CountersBounded(cfg, s.local)
  {
    hide Rebalanced, OwnerOf, Covered, SinkGenuine, Routed, HandledAccounted, MemberSafe;
    if s.joined {
      assert Tidy(cfg, y, s.id);
    } else {
      QuietStepKeeps(cfg, y, Join(s.id));
      assert Tidy(cfg, Apply(cfg, y, Join(s.id)), s.id);
    }
    if s.id in y.members { assert Tallied(cfg, y.members[s.id].Own(), MemberCursors(y, y.members[s.id])); }
  }

  /** Draining joins first, so it is the same from a consumer that has joined already. */
  lemma DrainJoinsFirst(cfg: Config, proc: Processor, s: Session, max: int, rounds: nat, acc: ConsumeReport)
    requires s.Valid() && rounds > 0
    ensures Joined(s).Valid() && Drain(cfg, proc, s, max, rounds, acc) == Drain(cfg, proc, Joined(s), max, rounds, acc)
  {
    hide Rebalanced, Delivery, Finish, AppendAll, Settle;
    assert Consume(cfg, proc, s, max) == Consume(cfg, proc, Joined(s), max);
  }

  /** Every record of the partitions the session's consumer owns is in the sink or in the dead-letter topic. */
  ghost predicate BacklogAccounted(cfg: Config, y: System, s: Session) {
    forall p, o: nat :: p in OwnedBy(s.group.assignment, s.id) && p < |y.logs| && o < |y.logs[p]| ==>
      AccountedFor(cfg, y.sink, y.dead, y.logs[p][o])
  }

  lemma DrainedIsAccounted(cfg: Config, y: System, s: Session)
    requires Shows(y, s) && Drained(s) && NothingLost(cfg, y)
    ensures BacklogAccounted(cfg, y, s)
  {
    hide AccountedFor;
  }

  /** Joining, if it has yet to, while everyone else is between cycles. */
  lemma JoinKeepsQuiet(cfg: Config, y: System, s: Session) returns (steps: seq<Step>, u: System)
    requires QuietInv(cfg, y) && Shows(y, s) && (s.joined || OthersRest(y, s.id))
    ensures Run(cfg, y, steps, u) && OwnSteps(steps, s.id)
    ensures Inv(cfg, u) && Shows(u, Joined(s)) && Joined(s).joined
  {
    hide Rebalanced, Inv, Run;
    steps, u := [], y;
    NoStep(cfg, y);
    if !s.joined {
      u := Apply(cfg, y, Join(s.id));
      QuietStepKeeps(cfg, y, Join(s.id));
      NoStep(cfg, u);
      steps := Before(cfg, y, Join(s.id), [], u);
    }
  }

  /**
   Lose nothing, from an empty bus to an empty backlog. After any quiet run - whatever was produced,
   whoever joined, left or crashed - take a consumer between cycles, which has joined or whose joining
   disturbs nobody's batch; other members may be inside theirs. If its backlog weighs less than the
   10,000 rounds allowed, or if its processor fails only in the calls numbered in `bad` and the other
   rounds can take the backlog, it drains its partitions to their ends. The drain is a run of the
   consumer's own steps from the state it found, sink included; and where it ends, every record ever
   produced to those partitions is accounted for.
   */
  lemma DrainLosesNothing(cfg: Config, proc: Processor, partitions: nat, deadPartitions: nat, steps: seq<Step>, y: System, s: Session, max: nat, bad: set<nat>)
    returns (more: seq<Step>, t: System)
    requires partitions >= 1 && deadPartitions >= 1 && max >= 1
    requires QuietRun(cfg, Start(partitions, deadPartitions), steps, y) && Shows(y, s) && (s.joined || OthersRest(y, s.id))
    requires OwnedBy(Joined(s).group.assignment, s.id) != {}
    requires s.Valid() && CountersBounded(cfg, s.local)
    requires Potential(cfg, s) < 10_000
      || (FailsOnlyIn(proc, bad) && |bad| <= 10_000 && Backlog(s) <= (10_000 - |bad|) * max)
    ensures Run(cfg, y, more, t) && OwnSteps(more, s.id)
    ensures var (s', r) := Drain(cfg, proc, s, max, 10_000, NoReport());
      && r.Ok? && Drained(s') && s'.logs == s.logs
      && Shows(t, s') && NothingLost(cfg, t) && BacklogAccounted(cfg, t, s')
  {
    hide QuietRun, GuardedRun, QuietInv, Inv, Potential, Backlog, FailsOnlyIn, Drain, Run, Shows, OthersRest, Ready, CountersBounded, Drained, Calm, NothingLost, BacklogAccounted, OwnSteps;
    StartIsQuiet(cfg, partitions, deadPartitions);
    QuietRunKeeps(cfg, Start(partitions, deadPartitions), steps, y);
    QuietMemberIsReady(cfg, y, s);
    DrainCompletes(cfg, proc, s, max, 10_000, NoReport());
    if Potential(cfg, s) >= 10_000 { DrainOutlastsFailures(cfg, proc, s, max, 10_000, bad); }
    DrainJoinsFirst(cfg, proc, s, max, 10_000, NoReport());
    var first, u := JoinKeepsQuiet(cfg, y, s);
    var rest;
    rest, t := DrainIsARun(u, cfg, proc, Joined(s), max, 10_000, NoReport());
    RunsCompose(cfg, y, first, u, rest, t);
    OwnBoth(first, rest, s.id);
    more := first + rest;
    CalmRunIsGuarded(cfg, u, rest, t);
    RunKeeps(cfg, u, rest, t);
    InvLosesNothing(cfg, t);
    DrainedIsAccounted(cfg, t, Drain(cfg, proc, s, max, 10_000, NoReport()).0);
  }
}
