/** What the figures of a cycle's and of a drain's report say about the session before and after. */
module DrainReports {
  import opened Prelude
  import opened EventTypes
  import opened BrokerModel
  import opened ConsumerModel
  import opened CycleLaws
  import opened DrainLaws

  /** How many records a topic holds. */
  function Size(logs: TopicLogs): nat { Sum(Lengths(logs)) }

  lemma AppendAddsOne(logs: TopicLogs, hash: string -> nat, record: EventRecord)
    requires |logs| >= 1
    ensures Size(Append(logs, hash, record)) == Size(logs) + 1
  {
    hide Sum;
    var p := PartitionFor(hash, record.key, |logs|);
    SumUpdate(Lengths(logs), p, |logs[p]| + 1);
    assert Lengths(Append(logs, hash, record)) == Lengths(logs)[p := |logs[p]| + 1];
  }

  lemma {:induction false} AppendAllAdds(logs: TopicLogs, hash: string -> nat, records: seq<EventRecord>)
    requires |logs| >= 1
    ensures Size(AppendAll(logs, hash, records)) == Size(logs) + |records|
    decreases |records|
  {
    hide Append, Size;
    if records != [] {
      var init := records[..|records| - 1];
      AppendAllAdds(logs, hash, init);
      AppendAddsOne(AppendAll(logs, hash, init), hash, records[|records| - 1]);
    }
  }

  /** The partitions reported are those whose committed offset advanced, from `a` to `b`, and each with its new offset. */
  ghost predicate ReportsCommits(a: seq<nat>, b: seq<nat>, through: map<nat, nat>) {
    && |a| == |b|
    && (forall p: nat :: p < |a| ==> a[p] <= b[p])
    && (forall p: nat :: p in through <==> p < |a| && a[p] < b[p])
    && (forall p: nat :: p in through ==> through[p] == b[p])
  }

  lemma FrontierReports(logs: TopicLogs, topic: string, owned: set<nat>, base: seq<nat>, position: seq<nat>, w: Work)
    requires Aligned(logs, topic, owned, base, position, w)
    ensures ReportsCommits(base, Cursors(w, base), w.frontier)
  {
  }

  lemma BalancedLetters(base: seq<nat>, batch: seq<ConsumedRecord>, cy: Cycle)
    requires Balanced(base, batch, cy)
    ensures |cy.letters| == cy.deadLettered
  {
  }

  /** A cycle reports what it dead-lettered, what it processed, and how far which partitions are committed. */
  lemma CycleReports(cfg: Config, proc: Processor, s: Session, max: int)
    requires Ready(s) && Consume(cfg, proc, s, max).1.Ok?
    ensures var (s', r) := Consume(cfg, proc, s, max);
      && Size(s'.dead) == Size(s.dead) + r.value.deadLettered
      && Sum(s'.group.committed) == Sum(s.group.committed) + r.value.deadLettered + r.value.processed
      && ReportsCommits(s.group.committed, s'.group.committed, r.value.committedThrough)
  {
    hide Delivery, Finish, Settle, Aligned, Balanced, Slice, Rebalanced, OwnerOf, Sum, Undone, AppendAll, Cursors, Size, ReportsCommits;
    CycleConserves(cfg, proc, s, max);
    var g, owned, batch, g1, end := ConsumeParts(cfg, proc, s, max);
    FrontierReports(s.logs, cfg.topic, owned, g.committed, g1.position, end.work);
    BalancedLetters(g.committed, batch, end);
    AppendAllAdds(s.dead, cfg.hash, end.letters);
  }

  /** The same for a drain that had `acc` already: offsets reported before stay unless they advanced again. */
  ghost predicate AddsCommits(a: seq<nat>, b: seq<nat>, before: map<nat, nat>, through: map<nat, nat>) {
    && |a| == |b|
    && (forall p: nat :: p < |a| ==> a[p] <= b[p])
    && (forall p: nat :: p in through <==> p in before || (p < |a| && a[p] < b[p]))
    && (forall p: nat :: p in through ==> through[p] == if p < |a| && a[p] < b[p] then b[p] else before[p])
  }

  lemma CommitsAddUp(a: seq<nat>, b: seq<nat>, c: seq<nat>, before: map<nat, nat>, first: map<nat, nat>, through: map<nat, nat>)
    requires ReportsCommits(a, b, first) && AddsCommits(b, c, before + first, through)
    ensures AddsCommits(a, c, before, through)
  {
  }

  lemma NothingCommitted(a: seq<nat>, before: map<nat, nat>)
    ensures AddsCommits(a, a, before, before)
  {
  }

  lemma NoneReported(a: seq<nat>, b: seq<nat>, through: map<nat, nat>)
    requires ReportsCommits(a, b, through) && Sum(a) == Sum(b)
    ensures a == b
  {
    var grown := seq(|a|, p requires 0 <= p < |a| => b[p] - a[p]);
    SumAdds(a, grown, b);
    forall p | 0 <= p < |a| ensures a[p] == b[p] { EntryWithinSum(grown, p); }
  }

  lemma {:induction false} DrainAddsUp(cfg: Config, proc: Processor, s: Session, max: int, rounds: nat, acc: ConsumeReport)
    requires Ready(s) && CountersBounded(cfg, s.local)
    requires OwnedBy(Joined(s).group.assignment, s.id) != {}
    ensures var (s', r) := Drain(cfg, proc, s, max, rounds, acc);
      && r.Ok?
      && Size(s'.dead) + acc.deadLettered == Size(s.dead) + r.value.deadLettered
      && Sum(s'.group.committed) + acc.deadLettered + acc.processed
         == Sum(s.group.committed) + r.value.deadLettered + r.value.processed
      && AddsCommits(s.group.committed, s'.group.committed, acc.committedThrough, r.value.committedThrough)
    decreases rounds
  {
    hide Drain, Potential, Consume, SettledOn, Drained, CountersBounded, Sum, Size, Rebalanced, OwnedBy, Joined, AddsCommits, ReportsCommits;
    DrainCases(cfg, proc, s, max, rounds, acc);
    NothingCommitted(s.group.committed, acc.committedThrough);
    if rounds > 0 {
      RoundOfDraining(cfg, proc, s, max);
      CycleReports(cfg, proc, s, max);
      var (s1, r) := Consume(cfg, proc, s, max);
      if r.value.polled != 0 {
        DrainAddsUp(cfg, proc, s1, max, rounds - 1, AddReport(acc, r.value));
        var (s', total) := Drain(cfg, proc, s1, max, rounds - 1, AddReport(acc, r.value));
        CommitsAddUp(s.group.committed, s1.group.committed, s'.group.committed, acc.committedThrough, r.value.committedThrough, total.value.committedThrough);
      } else {
        NoneReported(s.group.committed, s1.group.committed, r.value.committedThrough);
      }
    }
  }

  /**
   A drain's report: `dead_lettered` is what the dead-letter topic gained, `processed` the rest of what
   the committed offsets advanced by, and `committed_through` names exactly the partitions that advanced,
   each with the offset it is now committed to.
   */
  lemma DrainReportIsExact(cfg: Config, proc: Processor, s: Session, max: int, rounds: nat)
    requires Ready(s) && CountersBounded(cfg, s.local)
    requires OwnedBy(Joined(s).group.assignment, s.id) != {}
    ensures var (s', r) := Drain(cfg, proc, s, max, rounds, NoReport());
      && r.Ok?
      && r.value.deadLettered == Size(s'.dead) - Size(s.dead)
      && r.value.processed == Sum(s'.group.committed) - Sum(s.group.committed) - r.value.deadLettered
      && ReportsCommits(s.group.committed, s'.group.committed, r.value.committedThrough)
  {
    hide Drain, SettledOn, CountersBounded, Sum, Size, Rebalanced, OwnedBy, Joined;
    DrainAddsUp(cfg, proc, s, max, rounds, NoReport());
  }
}
