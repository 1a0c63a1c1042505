/** How far a group is behind on a topic (eventbus/lag_monitor.py), and what those numbers mean on the bus. */
module LagMonitor {
  import opened Prelude
  import opened EventTypes
  import opened BrokerModel
  import opened Broker
  import opened ConsumerModel
  import opened CycleLaws
  import opened Protocol
  import opened QuietRuns
  import opened GentleRuns
  import opened UnsafeMoves

  // ---- the numbers ----

  function PartitionLag(logs: TopicLogs, g: Group, p: nat): nat
    requires p < |logs| && g.Sized(|logs|)
  {
    if |logs[p]| > g.committed[p] then |logs[p]| - g.committed[p] else 0
  }

  /** Records behind, for each partition in turn; never negative. */
  function Lags(logs: TopicLogs, g: Group): (r: seq<nat>)
    requires g.Sized(|logs|)
    ensures |r| == |logs|
  {
    seq(|logs|, p requires 0 <= p < |logs| => PartitionLag(logs, g, p))
  }

  function TotalLag(logs: TopicLogs, g: Group): nat
    requires g.Sized(|logs|)
  {
    Sum(Lags(logs, g))
  }

  function Largest(lags: seq<nat>): (m: nat)
    ensures forall i :: 0 <= i < |lags| ==> lags[i] <= m
    ensures m == 0 || m in lags
  {
    if lags == [] then 0
    else
      var rest := Largest(lags[..|lags| - 1]);
      if lags[|lags| - 1] > rest then lags[|lags| - 1] else rest
  }

  // ---- snapshots ----

  datatype ReasonPart = TotalOverCap(lag: nat, cap: nat) | PartitionsOverCap(partitions: seq<nat>, cap: nat) | ThresholdExceeded

  function Offending(lags: seq<nat>, cap: nat): (r: seq<nat>)
    ensures forall p: nat :: p in r <==> p < |lags| && lags[p] > cap
    ensures forall i, j :: 0 <= i < j < |r| ==> r[i] < r[j]
  {
    if lags == [] then []
    else
      var last := |lags| - 1;
      var before := Offending(lags[..last], cap);
      assert forall i :: 0 <= i < |before| ==> before[i] in before;
      before + if lags[last] > cap then [last] else []
  }

  /** One observation of a backlog, with the thresholds it was judged by. */
  datatype LagSnapshot = LagSnapshot(
    topic: string, group: string, perPartition: seq<nat>, total: nat, largest: nat,
    thresholdPartition: nat, thresholdTotal: nat, withinThreshold: bool)
  {
    /** The partitions over the per-partition threshold, in ascending order. */
    function OffendingPartitions(): (r: seq<nat>)
      ensures forall p: nat :: p in r <==> p < |perPartition| && perPartition[p] > thresholdPartition
      ensures forall i, j :: 0 <= i < j < |r| ==> r[i] < r[j]
    {
      Offending(perPartition, thresholdPartition)
    }

    /** Why the snapshot blocks: the parts of the message, none when it does not block. */
    function Reason(): seq<ReasonPart> {
      if withinThreshold then []
      else
        var parts := (if total > thresholdTotal then [TotalOverCap(total, thresholdTotal)] else [])
          + (if OffendingPartitions() != [] then [PartitionsOverCap(OffendingPartitions(), thresholdPartition)] else []);
        if parts != [] then parts else [ThresholdExceeded]
    }
  }

  /** A snapshot as the monitor makes them: its totals and verdict follow from the per-partition lags. */
  predicate Judged(s: LagSnapshot) {
    && s.total == Sum(s.perPartition) && s.largest == Largest(s.perPartition)
    && s.withinThreshold == (s.total <= s.thresholdTotal && s.largest <= s.thresholdPartition)
  }

  class ConsumerLagMonitor {
    const broker: InMemoryBroker
    const maxPartitionLag: nat
    const maxTotalLag: nat

    constructor (broker: InMemoryBroker, maxPartitionLag: nat, maxTotalLag: nat)
      ensures this.broker == broker && this.maxPartitionLag == maxPartitionLag && this.maxTotalLag == maxTotalLag
    {
      this.broker, this.maxPartitionLag, this.maxTotalLag := broker, maxPartitionLag, maxTotalLag;
    }

    /** Records behind per partition. Asking about a missing topic creates it, as any use of it does. */
    method LagByPartition(topic: string, group: string) returns (r: Result<seq<nat>, BrokerError>)
      requires broker.Valid()
      modifies broker`topics
      ensures broker.Valid() && broker.topics == old(broker.WithTopic(topic))
      ensures r == if topic in broker.topics then Ok(Lags(broker.topics[topic], broker.View(topic, group))) else Err(ValueError)
    {
      var ensured := broker.EnsureTopic(topic);
      if ensured.Err? { return Err(ensured.error); }
      var partitions := |broker.topics[topic]|;
      var out: seq<nat> := [];
      for p := 0 to partitions
        invariant |out| == p && forall q :: 0 <= q < p ==> out[q] == PartitionLag(broker.topics[topic], broker.View(topic, group), q)
      {
        var highWatermark := |broker.topics[topic][p]|;
        var committed := At(broker.StateOf(topic, group).committed, p);
        var lag := highWatermark - committed;
        out := out + [if lag > 0 then lag else 0];
      }
      assert out == Lags(broker.topics[topic], broker.View(topic, group));
      r := Ok(out);
    }

    /** Observe a group's backlog and judge it by this monitor's thresholds. */
    method Snapshot(topic: string, group: string) returns (r: Result<LagSnapshot, BrokerError>)
      requires broker.Valid()
      modifies broker`topics
      ensures broker.Valid() && broker.topics == old(broker.WithTopic(topic))
      ensures r.Err? <==> topic !in broker.topics
      ensures r.Ok? ==>
        && r.value.perPartition == Lags(broker.topics[topic], broker.View(topic, group))
        && r.value.total == TotalLag(broker.topics[topic], broker.View(topic, group))
        && r.value.thresholdPartition == maxPartitionLag && r.value.thresholdTotal == maxTotalLag
        && r.value.topic == topic && r.value.group == group
        && Judged(r.value)
    {
      var lags := LagByPartition(topic, group);
      if lags.Err? { return Err(lags.error); }
      var total := Sum(lags.value);
      var largest := Largest(lags.value);
      var within := total <= maxTotalLag && largest <= maxPartitionLag;
      r := Ok(LagSnapshot(topic, group, lags.value, total, largest, maxPartitionLag, maxTotalLag, within));
    }
  }

  /** The gate opens exactly when no reason can be given, and the catch-all reason is never used. */
  lemma ReasonIsComplete(s: LagSnapshot)
    requires Judged(s)
    ensures s.withinThreshold <==> s.Reason() == []
    ensures s.withinThreshold <==>
      s.total <= s.thresholdTotal && forall p :: 0 <= p < |s.perPartition| ==> s.perPartition[p] <= s.thresholdPartition
    ensures ThresholdExceeded !in s.Reason()
  {
    if s.OffendingPartitions() != [] {
      assert s.OffendingPartitions()[0] in s.OffendingPartitions();
    }
    if s.largest > s.thresholdPartition {
      var p :| 0 <= p < |s.perPartition| && s.perPartition[p] == s.largest;
      assert p in s.OffendingPartitions();
    }
  }

  /** Some partition is over its cap. */
  ghost predicate SomeOver(s: LagSnapshot) {
    exists p :: 0 <= p < |s.perPartition| && s.perPartition[p] > s.thresholdPartition
  }

  lemma OffendingWhenOver(s: LagSnapshot)
    ensures s.OffendingPartitions() != [] <==> SomeOver(s)
  {
    var ps := s.OffendingPartitions();
    if ps != [] { assert ps[0] in ps; }
    if p :| 0 <= p < |s.perPartition| && s.perPartition[p] > s.thresholdPartition { assert p in ps; }
  }

  lemma WithinWhenNoneOver(s: LagSnapshot)
    requires Judged(s)
    ensures s.withinThreshold <==> s.total <= s.thresholdTotal && !SomeOver(s)
  {
    ReasonIsComplete(s);
  }

  /**
   The message says the total and its cap if the total is over, and then, if some partition is over
   its own cap, all that are (see OffendingPartitions) and that cap; and nothing else.
   */
  lemma ReasonSaysWhatIsOver(s: LagSnapshot)
    requires Judged(s)
    ensures s.Reason() ==
      (if s.total > s.thresholdTotal then [TotalOverCap(Sum(s.perPartition), s.thresholdTotal)] else [])
      + (if SomeOver(s) then [PartitionsOverCap(s.OffendingPartitions(), s.thresholdPartition)] else [])
  {
    hide Offending, Largest, Sum, SomeOver;
    ReasonIsComplete(s);
    OffendingWhenOver(s);
    assert s.withinThreshold <==> s.total <= s.thresholdTotal && !SomeOver(s) by { WithinWhenNoneOver(s); }
  }

  // ---- what the numbers mean ----

  /** The clamp never fires: nothing is committed beyond the end of its partition. */
  predicate WithinLogs(logs: TopicLogs, g: Group) {
    g.Sized(|logs|) && forall p :: 0 <= p < |logs| ==> g.committed[p] <= |logs[p]|
  }

  /** Then the total is exactly the number of records produced and not yet committed. */
  lemma LagCountsUncommitted(logs: TopicLogs, g: Group)
    requires WithinLogs(logs, g)
    ensures forall p :: 0 <= p < |logs| ==> Lags(logs, g)[p] == |logs[p]| - g.committed[p]
    ensures TotalLag(logs, g) + Sum(g.committed) == Sum(Lengths(logs))
  {
    SumAdds(Lags(logs, g), g.committed, Lengths(logs));
  }

  /** One more record is one more behind. */
  lemma ProduceAddsLag(logs: TopicLogs, g: Group, hash: string -> nat, record: EventRecord)
    requires |logs| >= 1 && WithinLogs(logs, g)
    ensures WithinLogs(Append(logs, hash, record), g)
    ensures TotalLag(Append(logs, hash, record), g) == TotalLag(logs, g) + 1
  {
    var p := PartitionFor(hash, record.key, |logs|);
    assert Lags(Append(logs, hash, record), g) == Lags(logs, g)[p := Lags(logs, g)[p] + 1];
    SumUpdate(Lags(logs, g), p, Lags(logs, g)[p] + 1);
  }

  lemma CursorsWithinLogs(logs: TopicLogs, topic: string, owned: set<nat>, base: seq<nat>, position: seq<nat>, w: Work)
    requires Aligned(logs, topic, owned, base, position, w) && forall p :: 0 <= p < |logs| ==> base[p] <= |logs[p]|
    ensures forall p :: 0 <= p < |logs| ==> Cursors(w, base)[p] <= |logs[p]|
  {
  }

  /** A cycle lowers the lag by exactly what it processed or dead-lettered. */
  lemma CycleLowersLag(cfg: Config, proc: Processor, s: Session, max: int)
    requires Ready(s) && WithinLogs(s.logs, s.group)
    requires Consume(cfg, proc, s, max).1.Ok?
    ensures var (s', r) := Consume(cfg, proc, s, max);
      && s'.logs == s.logs && WithinLogs(s.logs, s'.group)
      && TotalLag(s.logs, s'.group) + r.value.processed + r.value.deadLettered == TotalLag(s.logs, s.group)
  {
    hide Delivery, Finish, Settle, Aligned, Balanced, Slice, Rebalanced, Sum;
    CycleConserves(cfg, proc, s, max);
    var g, owned, batch, g1, end := ConsumeParts(cfg, proc, s, max);
    var s' := Consume(cfg, proc, s, max).0;
    CursorsWithinLogs(s.logs, cfg.topic, owned, g.committed, g1.position, end.work);
    LagCountsUncommitted(s.logs, s.group);
    LagCountsUncommitted(s.logs, s'.group);
  }

  /** How many records nobody has handled yet. */
  ghost function Unhandled(s: System): seq<nat>
    requires Sizes(s) && Bounds(s)
  {
    seq(|s.logs|, p requires 0 <= p < |s.logs| => |s.logs[p]| - Heights(s)[p])
  }

  lemma {:induction false} ZeroSumMeansZeros(s: seq<nat>)
    ensures Sum(s) == 0 ==> forall i :: 0 <= i < |s| ==> s[i] == 0
  {
    if |s| > 0 { ZeroSumMeansZeros(s[..|s| - 1]); }
  }

  /**
   On every state of a guarded run the lag is exact: the clamp does not fire, the lag is at least
   the number of unhandled records, and equal to it exactly when everything handled is committed.
   */
  lemma LagIsExact(cfg: Config, partitions: nat, deadPartitions: nat, steps: seq<Step>, t: System)
    requires partitions >= 1 && deadPartitions >= 1
    requires GuardedRun(cfg, Start(partitions, deadPartitions), steps, t)
    ensures Sizes(t) && WithinLogs(t.logs, t.group) && Bounds(t)
    ensures TotalLag(t.logs, t.group) + Sum(t.group.committed) == Sum(Lengths(t.logs))
    ensures Sum(Unhandled(t)) <= TotalLag(t.logs, t.group)
    ensures Sum(Unhandled(t)) == TotalLag(t.logs, t.group) <==> t.group.committed == Heights(t)
  {
    hide GuardedRun, Height, Covered, SinkGenuine, Routed, HandledAccounted, MemberSafe;
    StartIsSafe(cfg, partitions, deadPartitions);
    RunKeeps(cfg, Start(partitions, deadPartitions), steps, t);
    LagCountsUncommitted(t.logs, t.group);
    var ahead := seq(|t.logs|, p requires 0 <= p < |t.logs| => Heights(t)[p] - t.group.committed[p]);
    SumAdds(Unhandled(t), ahead, Lags(t.logs, t.group));
    ZeroSumMeansZeros(ahead);
    if Sum(ahead) == 0 {
      forall p | 0 <= p < |t.logs| ensures t.group.committed[p] == Heights(t)[p] { assert ahead[p] == 0; }
      assert t.group.committed == Heights(t);
    }
    if t.group.committed == Heights(t) { ZerosSum(ahead); }
  }

  /**
   In terms of what the code keeps: when no member ever crashed inside a batch, the lag is the number
   of unhandled records if and only if no member has handled a record of the batch it is working on;
   so it is whenever all members are between cycles.
   */
  lemma LagIsUnhandledExactlyWhen(cfg: Config, partitions: nat, deadPartitions: nat, steps: seq<Step>, t: System)
    requires partitions >= 1 && deadPartitions >= 1
    requires GentleRun(cfg, Start(partitions, deadPartitions), steps, t)
    ensures Sizes(t) && Bounds(t)
    ensures Sum(Unhandled(t)) == TotalLag(t.logs, t.group) <==> !HandledInBatch(t)
    ensures (forall id :: id in t.members ==> !t.members[id].Working?) ==> Sum(Unhandled(t)) == TotalLag(t.logs, t.group)
  {
    hide GuardedRun, GentleRun, QuietRun, GentleInv, QuietInv, Height, Sum;
    StartIsGentle(cfg, partitions, deadPartitions);
    GentleRunKeeps(cfg, Start(partitions, deadPartitions), steps, t);
    StartIsQuiet(cfg, partitions, deadPartitions);
    QuietRunKeeps(cfg, Start(partitions, deadPartitions), steps, t);
    LagIsExact(cfg, partitions, deadPartitions, steps, t);
    HandledIsCommittedExactlyWhen(cfg, partitions, deadPartitions, steps, t);
  }

  lemma SumOfTwo(a: nat, b: nat)
    ensures Sum([a, b]) == a + b
  {
    assert [a, b][..1] == [a] && [a][..0] == [];
    assert Sum([a]) == Sum([]) + a;
    assert Sum([a, b]) == Sum([a]) + b;
  }

  lemma OneBehind(s: System)
    requires Sizes(s) && s.logs == [[], [First()]] && s.handled == [{}, {0}] && s.group.committed == [0, 0]
    requires forall p: nat :: p < 2 ==> s.group.position[p] <= |s.logs[p]|
    ensures Bounds(s) && Sum(Unhandled(s)) == 0 && TotalLag(s.logs, s.group) == 1
  {
    hide Height;
    HeightIs(0);
    HeightIs(1);
    assert Below(0) == {} && Below(1) == {0};
    assert Heights(s) == [0, 1];
    assert Unhandled(s) == [0, 0] && Lags(s.logs, s.group) == [0, 1];
    SumOfTwo(0, 0);
    SumOfTwo(0, 1);
  }

  /**
   The lag can be larger: a member that has handled its one record and not yet committed it leaves a
   lag of one with nothing unhandled; and if it crashes at that moment the lag stays, with every
   member - there is none - between cycles.
   */
  lemma LagCanExceedUnhandled() returns (steps: seq<Step>, t: System, t': System)
    ensures steps == [Produce(First()), Join("a"), Poll("a", 1), Handle("a", Returned)]
    ensures GentleRun(Plain(), Start(2, 1), steps, t) && QuietRun(Plain(), Start(2, 1), steps + [Crash("a")], t')
    ensures Sizes(t) && Bounds(t) && Sum(Unhandled(t)) == 0 && TotalLag(t.logs, t.group) == 1
    ensures Sizes(t') && Bounds(t') && Sum(Unhandled(t')) == 0 && TotalLag(t'.logs, t'.group) == 1 && t'.members == map[]
  {
    hide GentleRun, QuietRun, GentleInv, Height, Sum, Rebalanced;
    var cfg := Plain();
    var first, s := OneReads();
    t := Apply(cfg, s, Handle("a", Returned));
    assert |t.handled| == 2 && t.handled[0] == {} && t.handled[1] == {} + {0} == {0};
    assert t.handled == [{}, {0}] && t.members["a"].work.pending == [];
    NoGentleStep(cfg, t);
    var last := GentleBefore(cfg, s, Handle("a", Returned), [], t);
    GentleRunsCompose(cfg, Start(2, 1), first, s, last, t);
    steps := first + last;
    t' := Apply(cfg, t, Crash("a"));
    assert t'.members == map[];
    StartIsGentle(cfg, 2, 1);
    GentleRunKeeps(cfg, Start(2, 1), steps, t);
    QuietThenOne(cfg, Start(2, 1), steps, t, Crash("a"));
    OneBehind(t);
    OneBehind(t');
  }
}
