/** Draining a backlog terminates and is complete: the measure behind `consume_until_empty`'s safety bound. */
module DrainLaws {
  import opened Prelude
  import opened EventTypes
  import opened Ordering
  import opened BrokerModel
  import opened PollModel
  import opened ConsumerModel
  import opened CycleLaws

  /** The retry limit in effect; a negative limit dead-letters on the first failure, like zero. */
  function Limit(cfg: Config): nat { if cfg.maxRetries < 0 then 0 else cfg.maxRetries }

  /** Every retry counter lies between one and the limit. */
  ghost predicate CountersBounded(cfg: Config, l: Local) {
    forall k :: k in l.retries ==> 1 <= l.retries[k] <= Limit(cfg)
  }

  lemma HandleBoundsCounters(cfg: Config, l: Local, c: ConsumedRecord, outcome: Outcome)
    requires CountersBounded(cfg, l)
    ensures CountersBounded(cfg, HandleRecord(cfg, l, c, outcome).local)
  {
  }

  /** The processor failures still possible on a stretch of offsets, plus one for each record. */
  function Weight(cfg: Config, retries: map<(nat, nat), nat>, p: nat, lo: nat, hi: nat): nat
    requires forall k :: k in retries ==> retries[k] <= Limit(cfg)
    decreases hi - lo
  {
    if lo >= hi then 0 else Limit(cfg) + 1 - Count(retries, (p, lo)) + Weight(cfg, retries, p, lo + 1, hi)
  }

  lemma {:induction false} WeightDependsOn(cfg: Config, a: map<(nat, nat), nat>, b: map<(nat, nat), nat>, p: nat, lo: nat, hi: nat)
    requires forall k :: k in a ==> a[k] <= Limit(cfg)
    requires forall k :: k in b ==> b[k] <= Limit(cfg)
    requires forall o: nat :: lo <= o < hi ==> Count(a, (p, o)) == Count(b, (p, o))
    ensures Weight(cfg, a, p, lo, hi) == Weight(cfg, b, p, lo, hi)
    decreases hi - lo
  {
    if lo < hi { WeightDependsOn(cfg, a, b, p, lo + 1, hi); }
  }

  /** The weights of the owned partitions' records that are not yet handled for good. */
  ghost function Weights(cfg: Config, logs: TopicLogs, owned: set<nat>, cursors: seq<nat>, l: Local): (r: seq<nat>)
    requires CountersBounded(cfg, l) && |cursors| == |logs|
    ensures |r| == |logs|
  {
    seq(|logs|, p requires 0 <= p < |logs| => if p in owned then Weight(cfg, l.retries, p, cursors[p], |logs[p]|) else 0)
  }

  /** The weight of a batch under way. */
  ghost function Heft(cfg: Config, logs: TopicLogs, owned: set<nat>, base: seq<nat>, w: Work): nat
    requires CountersBounded(cfg, w.local) && |base| == |logs|
  {
    Sum(Weights(cfg, logs, owned, Cursors(w, base), w.local))
  }

  lemma SameLength(logs: TopicLogs, topic: string, owned: set<nat>, base: seq<nat>, position: seq<nat>, w: Work)
    requires Aligned(logs, topic, owned, base, position, w)
    ensures |base| == |position| == |logs|
    ensures forall p :: p in owned ==> p < |logs| && position[p] <= |logs[p]|
  {
  }

  /** Handling a record leaves every other offset's retry counter alone. */
  lemma CountsElsewhere(cfg: Config, l: Local, c: ConsumedRecord, outcome: Outcome)
    ensures var h := HandleRecord(cfg, l, c, outcome);
      forall k :: k != (c.partition, c.offset) ==> Count(h.local.retries, k) == Count(l.retries, k)
  {
  }

  lemma OwnWeightFalls(cfg: Config, l: Local, c: ConsumedRecord, outcome: Outcome, hi: nat)
    requires CountersBounded(cfg, l) && c.offset < hi
    ensures var h := HandleRecord(cfg, l, c, outcome);
      && CountersBounded(cfg, h.local)
      && Weight(cfg, h.local.retries, c.partition, if h.done then c.offset + 1 else c.offset, hi)
        < Weight(cfg, l.retries, c.partition, c.offset, hi)
  {
    var h := HandleRecord(cfg, l, c, outcome);
    HandleBoundsCounters(cfg, l, c, outcome);
    CountsElsewhere(cfg, l, c, outcome);
    WeightDependsOn(cfg, l.retries, h.local.retries, c.partition, c.offset + 1, hi);
  }

  /** A record's handling lowers the weight, unless it is skipped. */
  lemma HandleLowersWeight(cfg: Config, logs: TopicLogs, owned: set<nat>, base: seq<nat>, position: seq<nat>, w: Work, outcome: Outcome)
    requires Aligned(logs, cfg.topic, owned, base, position, w) && w.pending != []
    requires CountersBounded(cfg, w.local)
    ensures var a := HandleNext(cfg, w, outcome);
      && |base| == |logs| && CountersBounded(cfg, a.work.local)
      && if a.fate.Skipped? then Heft(cfg, logs, owned, base, a.work) == Heft(cfg, logs, owned, base, w)
         else Heft(cfg, logs, owned, base, a.work) < Heft(cfg, logs, owned, base, w)
  {
    hide Slice, HandleRecord, Sum, Weight, Aligned;
    NextIsAtCursor(logs, cfg.topic, owned, base, position, w);
    HandleMovesCursor(cfg, logs, owned, base, position, w, outcome);
    SameLength(logs, cfg.topic, owned, base, position, w);
    var c := w.pending[0];
    if c.partition !in w.seekBack {
      HandleBoundsCounters(cfg, w.local, c, outcome);
      var a := HandleNext(cfg, w, outcome);
      var before := Weights(cfg, logs, owned, Cursors(w, base), w.local);
      var after := Weights(cfg, logs, owned, Cursors(a.work, base), a.work.local);
      CountsElsewhere(cfg, w.local, c, outcome);
      forall q: nat | q < |logs| && q != c.partition ensures after[q] == before[q] {
        WeightDependsOn(cfg, w.local.retries, a.work.local.retries, q, CursorAt(w, base, q), |logs[q]|);
      }
      assert after == before[c.partition := after[c.partition]];
      OwnWeightFalls(cfg, w.local, c, outcome, |logs[c.partition]|);
      SumUpdate(before, c.partition, after[c.partition]);
    }
  }

  /** The measure of a session: the sum, over its uncommitted owned records, of limit + 1 - failures so far. */
  ghost function Potential(cfg: Config, s: Session): nat
    requires s.Valid() && CountersBounded(cfg, s.local)
  {
    Sum(Weights(cfg, s.logs, OwnedBy(Joined(s).group.assignment, s.id), s.group.committed, s.local))
  }

  lemma {:induction false} FinishLowersWeight(cfg: Config, proc: Processor, logs: TopicLogs, owned: set<nat>, base: seq<nat>, position: seq<nat>, cy: Cycle)
    requires Aligned(logs, cfg.topic, owned, base, position, cy.work) && |base| == |logs|
    requires CountersBounded(cfg, cy.work.local)
    ensures var end := Finish(cfg, proc, cy);
      && CountersBounded(cfg, end.work.local)
      && Heft(cfg, logs, owned, base, end.work) <= Heft(cfg, logs, owned, base, cy.work)
      && (cy.work.pending != [] && cy.work.seekBack == {} ==>
           Heft(cfg, logs, owned, base, end.work) < Heft(cfg, logs, owned, base, cy.work))
    decreases |cy.work.pending|
  {
    hide Slice, HandleRecord, Heft, Aligned, CountersBounded, AnswerTo, CallsProcessor;
    if cy.work.pending != [] {
      var outcome := AnswerTo(cfg, proc, cy);
      var next := CycleStep(cfg, proc, cy);
      assert next.work == HandleNext(cfg, cy.work, outcome).work;
      HandleKeepsAligned(cfg, logs, owned, base, position, cy.work, outcome);
      HandleLowersWeight(cfg, logs, owned, base, position, cy.work, outcome);
      FinishLowersWeight(cfg, proc, logs, owned, base, position, next);
    }
  }

  /** After a cycle the session is ready for the next one, with the same partitions. */
  lemma ConsumeStaysReady(cfg: Config, proc: Processor, s: Session, max: int)
    requires Ready(s)
    ensures var (s', r) := Consume(cfg, proc, s, max);
      && Ready(s') && s'.logs == s.logs && s'.id == s.id && s'.joined
      && s'.group.assignment == Joined(s).group.assignment
  {
    hide Delivery, Finish, Slice, Rebalanced, OwnerOf, Aligned, Balanced, Settle, Cursors, AppendAll;
    if Consume(cfg, proc, s, max).1.Ok? {
      var g, owned, batch, g1, end := ConsumeParts(cfg, proc, s, max);
    }
  }

  lemma NothingYetCommitted(w: Work, base: seq<nat>)
    requires w.frontier == map[]
    ensures Cursors(w, base) == base
  {
  }

  lemma NothingToFinish(cfg: Config, proc: Processor, cy: Cycle)
    requires cy.work.pending == []
    ensures Finish(cfg, proc, cy) == cy
  {
  }

  lemma {:induction false} CountersGrow(cfg: Config, proc: Processor, cy: Cycle)
    ensures var end := Finish(cfg, proc, cy);
      end.processed >= cy.processed && end.deadLettered >= cy.deadLettered && end.retried >= cy.retried
    decreases |cy.work.pending|
  {
    if cy.work.pending != [] { CountersGrow(cfg, proc, CycleStep(cfg, proc, cy)); }
  }

  /** Counters only grow, and the first record of a batch counts as something. */
  lemma FirstIsNotSkipped(cfg: Config, proc: Processor, cy: Cycle)
    requires cy.work.pending != [] && cy.work.seekBack == {}
    ensures var end := Finish(cfg, proc, cy);
      end.processed + end.deadLettered + end.retried > cy.processed + cy.deadLettered + cy.retried
  {
    CountersGrow(cfg, proc, CycleStep(cfg, proc, cy));
  }

  /** Every partition the consumer owns is committed, and read, to its end. */
  ghost predicate Drained(s: Session) {
    && s.group.Sized(|s.logs|)
    && forall p :: p in OwnedBy(s.group.assignment, s.id) ==>
         p < |s.logs| && s.group.committed[p] == s.group.position[p] == |s.logs[p]|
  }

  /**
   Progress. A poll that delivers anything lowers the measure and is never a poll "that did
   nothing"; one that delivers nothing, when at least one record was asked for, means that
   every owned partition is committed to its end.
   */
  lemma CycleProgress(cfg: Config, proc: Processor, s: Session, max: int)
    requires Ready(s) && CountersBounded(cfg, s.local)
    requires Consume(cfg, proc, s, max).1.Ok?
    ensures var (s', r) := Consume(cfg, proc, s, max);
      && CountersBounded(cfg, s'.local)
      && (r.value.polled > 0 ==> Potential(cfg, s') < Potential(cfg, s) && !DidNothing(r.value))
      && (r.value.polled == 0 && max >= 1 ==> Drained(s'))
  {
    hide Finish, Slice, Rebalanced, OwnerOf, Aligned, Balanced, Settle, Delivery, Weights, Sum, Cursors;
    var g, owned, batch, g1, end := ConsumeParts(cfg, proc, s, max);
    var start := NewCycle(s.local, batch, s.calls);
    PollAligns(s.logs, cfg.topic, g, s.id, max, s.local, s.calls);
    FinishLowersWeight(cfg, proc, s.logs, owned, g.committed, g1.position, start);
    NothingYetCommitted(start.work, g.committed);
    var (s', r) := Consume(cfg, proc, s, max);
    if batch != [] {
      FirstIsNotSkipped(cfg, proc, start);
    } else {
      if max >= 1 {
        forall p | p in owned ensures s'.group.committed[p] == |s.logs[p]| {
          EmptyDelivery(s.logs, cfg.topic, g, s.id, max, p);
          NothingToFinish(cfg, proc, start);
        }
      }
    }
  }

  lemma DrainCases(cfg: Config, proc: Processor, s: Session, max: int, rounds: nat, acc: ConsumeReport)
    requires s.Valid()
    ensures rounds == 0 ==> Drain(cfg, proc, s, max, rounds, acc) == (s, Ok(acc))
    ensures rounds > 0 ==>
      var (s1, r) := Consume(cfg, proc, s, max);
      && s1.Valid()
      && (r.Ok? && r.value.polled == 0 ==> Drain(cfg, proc, s, max, rounds, acc) == (s1, Ok(acc)))
      && (r.Ok? && r.value.polled > 0 && !DidNothing(r.value) ==>
           Drain(cfg, proc, s, max, rounds, acc) == Drain(cfg, proc, s1, max, rounds - 1, AddReport(acc, r.value)))
  {
    hide Consume, Rebalanced;
  }

  lemma ConsumeSucceeds(cfg: Config, proc: Processor, s: Session, max: int)
    requires Ready(s) && OwnedBy(Joined(s).group.assignment, s.id) != {}
    ensures Consume(cfg, proc, s, max).1.Ok?
  {
  }

  lemma NothingPolled(cfg: Config, proc: Processor, s: Session, max: int)
    requires Ready(s) && Consume(cfg, proc, s, max).1.Ok? && Consume(cfg, proc, s, max).1.value.polled == 0
    ensures var r := Consume(cfg, proc, s, max).1.value; r.processed == 0 && r.deadLettered == 0
  {
    var g, owned, batch, g1, end := ConsumeParts(cfg, proc, s, max);
    NothingToFinish(cfg, proc, NewCycle(s.local, batch, s.calls));
  }

  /** One round of a drain: it succeeds, conserves, stays ready, and either makes progress or has drained. */
  lemma RoundOfDraining(cfg: Config, proc: Processor, s: Session, max: int)
    requires Ready(s) && CountersBounded(cfg, s.local)
    requires OwnedBy(Joined(s).group.assignment, s.id) != {}
    ensures var (s1, r) := Consume(cfg, proc, s, max);
      && r.Ok? && Ready(s1) && CountersBounded(cfg, s1.local) && s1.logs == s.logs
      && OwnedBy(Joined(s1).group.assignment, s1.id) != {}
      && Sum(s1.group.committed) == Sum(s.group.committed) + r.value.processed + r.value.deadLettered
      && (r.value.polled > 0 ==> Potential(cfg, s1) < Potential(cfg, s) && !DidNothing(r.value))
      && (r.value.polled == 0 ==> r.value.processed == r.value.deadLettered == 0)
      && (r.value.polled == 0 && max >= 1 ==> Drained(s1))
  {
    hide Potential, Consume, SettledOn, Drained, CountersBounded, Sum, Rebalanced, OwnerOf, Delivery, Undone;
    ConsumeSucceeds(cfg, proc, s, max);
    ConsumeStaysReady(cfg, proc, s, max);
    CycleProgress(cfg, proc, s, max);
    CycleConserves(cfg, proc, s, max);
    if Consume(cfg, proc, s, max).1.value.polled == 0 { NothingPolled(cfg, proc, s, max); }
  }

  /**
   A drain of a consumer that owns a partition succeeds; it conserves offsets like its cycles do;
   and when the measure is below the number of rounds allowed, it ends with everything drained.
   */
  lemma {:induction false} DrainCompletes(cfg: Config, proc: Processor, s: Session, max: int, rounds: nat, acc: ConsumeReport)
    requires Ready(s) && CountersBounded(cfg, s.local)
    requires OwnedBy(Joined(s).group.assignment, s.id) != {}
    ensures var (s', r) := Drain(cfg, proc, s, max, rounds, acc);
      && r.Ok? && Ready(s') && CountersBounded(cfg, s'.local) && s'.logs == s.logs
      && Sum(s'.group.committed) + acc.processed + acc.deadLettered
         == Sum(s.group.committed) + r.value.processed + r.value.deadLettered
      && (max >= 1 && Potential(cfg, s) < rounds ==> Drained(s'))
    decreases rounds
  {
    hide Drain, Potential, Consume, SettledOn, Drained, CountersBounded, Sum, Rebalanced, OwnedBy, Joined;
    DrainCases(cfg, proc, s, max, rounds, acc);
    if rounds > 0 {
      RoundOfDraining(cfg, proc, s, max);
      var (s1, r) := Consume(cfg, proc, s, max);
      if r.value.polled != 0 {
        DrainCompletes(cfg, proc, s1, max, rounds - 1, AddReport(acc, r.value));
      }
    }
  }

  // ---- how much a drain can do ----

  /** For each owned partition, how many of its records lie at or beyond the given offset. */
  function Beyond(logs: TopicLogs, owned: set<nat>, offsets: seq<nat>): (r: seq<nat>)
    requires |offsets| == |logs|
    ensures |r| == |logs|
  {
    seq(|logs|, p requires 0 <= p < |logs| => if p in owned && offsets[p] <= |logs[p]| then |logs[p]| - offsets[p] else 0)
  }

  /** How many records the session's consumer has yet to commit on the partitions it owns, or will own. */
  function Backlog(s: Session): nat
    requires s.Valid()
  {
    Sum(Beyond(s.logs, OwnedBy(Joined(s).group.assignment, s.id), s.group.committed))
  }

  lemma {:induction false} UnreadLength(logs: TopicLogs, topic: string, position: seq<nat>, owned: seq<nat>, mine: set<nat>)
    requires |position| == |logs| && NoDuplicates(owned)
    requires (forall p :: p in owned <==> p in mine) && forall p :: p in mine ==> p < |logs|
    ensures forall i :: 0 <= i < |owned| ==> owned[i] < |logs|
    ensures |Unread(logs, topic, position, owned)| == Sum(Beyond(logs, mine, position))
  {
    hide Sum, Tail;
    forall i | 0 <= i < |owned| ensures owned[i] < |logs| { assert owned[i] in owned; }
    if owned == [] {
      ZerosSum(Beyond(logs, mine, position));
    } else {
      var init, last := owned[..|owned| - 1], owned[|owned| - 1];
      assert owned == init + [last];
      UnreadLength(logs, topic, position, init, mine - {last});
      var before := Beyond(logs, mine - {last}, position);
      var tail := |Tail(logs, topic, last, position[last])|;
      SumUpdate(before, last, tail);
      assert Beyond(logs, mine, position) == before[last := tail];
    }
  }

  /** A poll delivers what was asked for, or everything there is if that is less. */
  lemma DeliveryLength(logs: TopicLogs, topic: string, g: Group, id: string, max: nat)
    requires SettledOn(logs, g, OwnedBy(g.assignment, id))
    ensures var backlog := Sum(Beyond(logs, OwnedBy(g.assignment, id), g.committed));
      |Delivery(logs, topic, g, id, max)| == if backlog <= max then backlog else max
  {
    hide Unread, SortedNats, Sum;
    var mine := OwnedBy(g.assignment, id);
    var owned := SortedNats(mine);
    assert forall i :: 0 <= i < |owned| ==> owned[i] in owned;
    UnreadLength(logs, topic, g.position, owned, mine);
    assert Beyond(logs, mine, g.position) == Beyond(logs, mine, g.committed);
  }

  /** Committing on owned partitions, within their ends, lowers what lies beyond by as much. */
  lemma CommittingLowers(logs: TopicLogs, owned: set<nat>, a: seq<nat>, b: seq<nat>)
    requires |a| == |b| == |logs|
    requires forall p: nat :: p < |logs| ==> if p in owned then a[p] <= |logs[p]| && b[p] <= |logs[p]| else a[p] == b[p]
    ensures Sum(Beyond(logs, owned, b)) + Sum(b) == Sum(Beyond(logs, owned, a)) + Sum(a)
  {
    var ends := seq(|logs|, p requires 0 <= p < |logs| => if p in owned then |logs[p]| else a[p]);
    SumAdds(Beyond(logs, owned, a), a, ends);
    SumAdds(Beyond(logs, owned, b), b, ends);
  }

  lemma CommittedElsewhere(logs: TopicLogs, topic: string, owned: set<nat>, base: seq<nat>, position: seq<nat>, w: Work)
    requires Aligned(logs, topic, owned, base, position, w)
    ensures |base| == |logs|
    ensures forall p: nat :: p < |logs| ==> if p in owned then base[p] <= |logs[p]| && Cursors(w, base)[p] <= |logs[p]| else Cursors(w, base)[p] == base[p]
  {
  }

  /** A cycle lowers the backlog by what it handles for good, which is at most what it asked for. */
  lemma CycleLowersBacklog(cfg: Config, proc: Processor, s: Session, max: nat)
    requires Ready(s) && Consume(cfg, proc, s, max).1.Ok?
    ensures var (s', r) := Consume(cfg, proc, s, max);
      && Backlog(s') + r.value.processed + r.value.deadLettered == Backlog(s)
      && r.value.processed + r.value.deadLettered <= r.value.polled == if Backlog(s) <= max then Backlog(s) else max
  {
    hide Delivery, Finish, Settle, Aligned, Balanced, Slice, Rebalanced, OwnerOf, Sum, Undone, Beyond, AppendAll;
    CycleConserves(cfg, proc, s, max);
    ConsumeStaysReady(cfg, proc, s, max);
    var g, owned, batch, g1, end := ConsumeParts(cfg, proc, s, max);
    DeliveryLength(s.logs, cfg.topic, g, s.id, max);
    CommittedElsewhere(s.logs, cfg.topic, owned, g.committed, g1.position, end.work);
    CommittingLowers(s.logs, owned, g.committed, Cursors(end.work, g.committed));
  }

  /** The processor never fails: it returns, or calls the record poison. */
  ghost predicate NeverFails(proc: Processor) {
    forall n: nat, agent: string, tx: Transaction :: !proc(n, agent, tx).Failed?
  }

  lemma {:induction false} NothingRetried(cfg: Config, proc: Processor, cy: Cycle)
    requires NeverFails(proc)
    ensures Finish(cfg, proc, cy).retried == cy.retried
    decreases |cy.work.pending|
  {
    if cy.work.pending != [] {
      assert !AnswerTo(cfg, proc, cy).Failed?;
      NothingRetried(cfg, proc, CycleStep(cfg, proc, cy));
    }
  }

  lemma NoneLeft(undone: seq<nat>)
    requires |set p: nat | p < |undone| && undone[p] > 0| == 0
    ensures Sum(undone) == 0
  {
    var left := set p: nat | p < |undone| && undone[p] > 0;
    assert left == {};
    forall p: nat | p < |undone| ensures undone[p] == 0 { assert p !in left; }
    ZerosSum(undone);
  }

  lemma NeverRetries(cfg: Config, proc: Processor, s: Session, max: nat)
    requires Ready(s) && NeverFails(proc) && Consume(cfg, proc, s, max).1.Ok?
    ensures Consume(cfg, proc, s, max).1.value.retried == 0
  {
    hide Delivery, Finish, Settle, Aligned, Balanced, Slice, Rebalanced, OwnerOf, Sum, AppendAll, NeverFails;
    var g, owned, batch, g1, end := ConsumeParts(cfg, proc, s, max);
    NothingRetried(cfg, proc, NewCycle(s.local, batch, s.calls));
  }

  /** A cycle without a retry handles for good all that it polls. */
  lemma CycleHandlesAll(cfg: Config, proc: Processor, s: Session, max: nat)
    requires Ready(s) && Consume(cfg, proc, s, max).1.Ok?
    requires Consume(cfg, proc, s, max).1.value.retried == 0
    ensures var r := Consume(cfg, proc, s, max).1.value; r.polled == r.processed + r.deadLettered
  {
    hide Delivery, Finish, Settle, Aligned, Balanced, Slice, Rebalanced, OwnerOf, Sum, AppendAll;
    CycleConserves(cfg, proc, s, max);
    var g, owned, batch, g1, end := ConsumeParts(cfg, proc, s, max);
    NoneLeft(Undone(g1.position, Consume(cfg, proc, s, max).0.group.committed, owned));
  }

  /** The processor fails in no other calls than these, counted over the consumer's life. */
  ghost predicate FailsOnlyIn(proc: Processor, bad: set<nat>) {
    forall n: nat, agent: string, tx: Transaction :: proc(n, agent, tx).Failed? ==> n in bad
  }

  /** Something in `bad` lies at or after `lo` and before `hi`. */
  predicate Between(bad: set<nat>, lo: nat, hi: nat) {
    exists n :: n in bad && lo <= n < hi
  }

  lemma RetryIsAFailedCall(cfg: Config, proc: Processor, cy: Cycle, bad: set<nat>)
    requires FailsOnlyIn(proc, bad) && cy.work.pending != []
    ensures var next := CycleStep(cfg, proc, cy);
      next.calls >= cy.calls && (next.retried > cy.retried ==> next.calls == cy.calls + 1 && cy.calls in bad)
  {
  }

  /** A batch with a retry has used up one of the failing calls. */
  lemma {:induction false} RetriesUseFailures(cfg: Config, proc: Processor, cy: Cycle, bad: set<nat>)
    requires FailsOnlyIn(proc, bad)
    ensures var end := Finish(cfg, proc, cy);
      end.calls >= cy.calls && (end.retried > cy.retried ==> Between(bad, cy.calls, end.calls))
    decreases |cy.work.pending|
  {
    hide CycleStep, FailsOnlyIn;
    if cy.work.pending != [] {
      StepCounts(cfg, proc, cy);
      RetryIsAFailedCall(cfg, proc, cy, bad);
      RetriesUseFailures(cfg, proc, CycleStep(cfg, proc, cy), bad);
    }
  }

  lemma CycleUsesFailures(cfg: Config, proc: Processor, s: Session, max: nat, bad: set<nat>)
    requires Ready(s) && FailsOnlyIn(proc, bad) && Consume(cfg, proc, s, max).1.Ok?
    ensures var (s', r) := Consume(cfg, proc, s, max);
      s'.calls >= s.calls && (r.value.retried > 0 ==> Between(bad, s.calls, s'.calls))
  {
    hide Delivery, Finish, Settle, Aligned, Balanced, Slice, Rebalanced, OwnerOf, Sum, AppendAll, FailsOnlyIn;
    var g, owned, batch, g1, end := ConsumeParts(cfg, proc, s, max);
    RetriesUseFailures(cfg, proc, NewCycle(s.local, batch, s.calls), bad);
  }

  /** The failing calls still to come. */
  function Ahead(bad: set<nat>, calls: nat): set<nat> {
    set n | n in bad && n >= calls
  }

  lemma AheadShrinks(bad: set<nat>, lo: nat, hi: nat)
    requires lo <= hi
    ensures |Ahead(bad, hi)| <= |Ahead(bad, lo)|
    ensures Between(bad, lo, hi) ==> |Ahead(bad, hi)| < |Ahead(bad, lo)|
  {
    if Between(bad, lo, hi) {
      var n :| n in bad && lo <= n < hi;
      SubsetSize(Ahead(bad, hi), Ahead(bad, lo) - {n});
    } else {
      SubsetSize(Ahead(bad, hi), Ahead(bad, lo));
    }
  }

  /** Enough rounds are left: one for each failing call to come, and enough others for the backlog. */
  predicate Enough(backlog: nat, rounds: nat, failures: nat, max: nat) {
    failures <= rounds && backlog <= (rounds - failures) * max
  }

  /** A round that takes all it asked for, or that uses up a failing call, leaves enough. */
  lemma EnoughIsLeft(backlog: nat, rounds: nat, failures: nat, max: nat, backlog': nat, failures': nat)
    requires Enough(backlog, rounds, failures, max) && rounds > 0 && backlog' <= backlog && failures' <= failures
    requires failures' < failures || (backlog' == if backlog <= max then 0 else backlog - max)
    ensures Enough(backlog', rounds - 1, failures', max) || backlog' == 0
  {
    if failures' < failures {
      MulMonotone(rounds - failures, rounds - 1 - failures', max);
    } else if backlog > max {
      var k: nat := rounds - failures;
      assert k * max >= backlog > 0;
      assert k != 0;
      assert k * max == (k - 1) * max + max;
    }
  }

  lemma NoRoundsNoBacklog(backlog: nat, failures: nat, max: nat)
    requires Enough(backlog, 0, failures, max) || backlog == 0
    ensures backlog == 0
  {
  }

  lemma NothingWithoutMax(backlog: nat, rounds: nat, failures: nat, max: nat)
    requires Enough(backlog, rounds, failures, max) || backlog == 0
    ensures max == 0 ==> backlog == 0
  {
  }

  lemma {:induction false} FewFailuresLeaveNothing(cfg: Config, proc: Processor, s: Session, max: nat, rounds: nat, acc: ConsumeReport, bad: set<nat>)
    requires Ready(s) && CountersBounded(cfg, s.local) && FailsOnlyIn(proc, bad)
    requires OwnedBy(Joined(s).group.assignment, s.id) != {}
    requires Enough(Backlog(s), rounds, |Ahead(bad, s.calls)|, max) || Backlog(s) == 0
    ensures var s' := Drain(cfg, proc, s, max, rounds, acc).0;
      && Ready(s') && (s.joined || rounds > 0 ==> s'.joined)
      && Backlog(s') == 0
    decreases rounds
  {
    hide Drain, Potential, Consume, SettledOn, Drained, CountersBounded, Sum, Rebalanced, OwnedBy, Joined, Backlog, FailsOnlyIn, Between, Ahead, Enough;
    DrainCases(cfg, proc, s, max, rounds, acc);
    if rounds == 0 {
      NoRoundsNoBacklog(Backlog(s), |Ahead(bad, s.calls)|, max);
    } else {
      RoundOfDraining(cfg, proc, s, max);
      CycleLowersBacklog(cfg, proc, s, max);
      ConsumeStaysReady(cfg, proc, s, max);
      CycleUsesFailures(cfg, proc, s, max, bad);
      var (s1, r) := Consume(cfg, proc, s, max);
      AheadShrinks(bad, s.calls, s1.calls);
      if r.value.retried == 0 { CycleHandlesAll(cfg, proc, s, max); }
      if Backlog(s) > 0 {
        EnoughIsLeft(Backlog(s), rounds, |Ahead(bad, s.calls)|, max, Backlog(s1), |Ahead(bad, s1.calls)|);
      }
      if r.value.polled != 0 {
        FewFailuresLeaveNothing(cfg, proc, s1, max, rounds - 1, AddReport(acc, r.value), bad);
      } else {
        NothingWithoutMax(Backlog(s), rounds, |Ahead(bad, s.calls)|, max);
      }
    }
  }

  lemma {:induction false} EntryWithinSum(s: seq<nat>, i: nat)
    requires i < |s|
    ensures s[i] <= Sum(s)
  {
    if i < |s| - 1 { EntryWithinSum(s[..|s| - 1], i); }
  }

  /** Ready and without a backlog is the same as drained. */
  lemma DrainedIsNoBacklog(s: Session)
    requires Ready(s) && s.joined
    ensures Drained(s) <==> Backlog(s) == 0
  {
    hide Sum, Rebalanced;
    var owned := OwnedBy(s.group.assignment, s.id);
    var left := Beyond(s.logs, owned, s.group.committed);
    if Drained(s) {
      ZerosSum(left);
    } else {
      var p: nat :| p in owned && s.group.committed[p] < |s.logs[p]|;
      EntryWithinSum(left, p);
    }
  }

  /**
   A processor that fails now and then: if it fails only in the calls numbered in `bad`, and besides one
   round for each of those the rounds can take the whole backlog, the drain empties it.
   */
  lemma DrainOutlastsFailures(cfg: Config, proc: Processor, s: Session, max: nat, rounds: nat, bad: set<nat>)
    requires Ready(s) && CountersBounded(cfg, s.local) && rounds > 0
    requires OwnedBy(Joined(s).group.assignment, s.id) != {}
    requires FailsOnlyIn(proc, bad) && |bad| <= rounds && Backlog(s) <= (rounds - |bad|) * max
    ensures Drained(Drain(cfg, proc, s, max, rounds, NoReport()).0)
  {
    hide Drain, SettledOn, CountersBounded, Drained, Backlog, Joined, OwnedBy, Rebalanced, FailsOnlyIn;
    SubsetSize(Ahead(bad, s.calls), bad);
    MulMonotone(rounds - |bad|, rounds - |Ahead(bad, s.calls)|, max);
    FewFailuresLeaveNothing(cfg, proc, s, max, rounds, NoReport(), bad);
    DrainedIsNoBacklog(Drain(cfg, proc, s, max, rounds, NoReport()).0);
  }

  /** What is left of a backlog when each round takes at most `max` of it. */
  function LeftAfter(backlog: nat, rounds: nat, max: nat): nat {
    if backlog <= rounds * max then 0 else backlog - rounds * max
  }

  /** Taking up to `max` first and then going on for one round less. */
  lemma OneRoundLess(backlog: nat, taken: nat, rounds: nat, max: nat)
    requires rounds > 0 && taken <= backlog && taken <= max
    ensures LeftAfter(backlog, rounds, max) <= LeftAfter(backlog - taken, rounds - 1, max)
    ensures taken == (if backlog <= max then backlog else max) ==>
      LeftAfter(backlog, rounds, max) == LeftAfter(backlog - taken, rounds - 1, max)
  {
    assert rounds * max == (rounds - 1) * max + max;
    assert (rounds - 1) * max >= 0;
  }

  lemma NothingBeyondZero(rounds: nat, max: nat)
    ensures LeftAfter(0, rounds, max) == 0
  {
    assert rounds * max >= 0;
  }

  lemma NoRounds(backlog: nat, max: nat)
    ensures LeftAfter(backlog, 0, max) == backlog
  {
  }

  lemma NothingToTake(backlog: nat, rounds: nat, max: nat)
    requires backlog == 0 || max == 0
    ensures LeftAfter(backlog, rounds, max) == backlog
  {
    if backlog == 0 { NothingBeyondZero(rounds, max); }
  }

  /** However the processor answers, a drain leaves at least what its rounds cannot take; and just that if it never fails. */
  lemma {:induction false} DrainLeaves(cfg: Config, proc: Processor, s: Session, max: nat, rounds: nat, acc: ConsumeReport)
    requires Ready(s) && CountersBounded(cfg, s.local)
    requires OwnedBy(Joined(s).group.assignment, s.id) != {}
    ensures var s' := Drain(cfg, proc, s, max, rounds, acc).0;
      && Ready(s') && (s.joined || rounds > 0 ==> s'.joined) && s'.logs == s.logs
      && Backlog(s') >= LeftAfter(Backlog(s), rounds, max)
      && (NeverFails(proc) ==> Backlog(s') == LeftAfter(Backlog(s), rounds, max))
    decreases rounds
  {
    hide Drain, Potential, Consume, SettledOn, Drained, CountersBounded, Sum, Rebalanced, OwnedBy, Joined, Backlog, LeftAfter, NeverFails;
    DrainCases(cfg, proc, s, max, rounds, acc);
    if rounds == 0 {
      NoRounds(Backlog(s), max);
    } else {
      RoundOfDraining(cfg, proc, s, max);
      CycleLowersBacklog(cfg, proc, s, max);
      ConsumeStaysReady(cfg, proc, s, max);
      var (s1, r) := Consume(cfg, proc, s, max);
      if NeverFails(proc) { NeverRetries(cfg, proc, s, max); CycleHandlesAll(cfg, proc, s, max); }
      OneRoundLess(Backlog(s), r.value.processed + r.value.deadLettered, rounds, max);
      if r.value.polled != 0 {
        DrainLeaves(cfg, proc, s1, max, rounds - 1, AddReport(acc, r.value));
      } else {
        NothingToTake(Backlog(s), rounds, max);
      }
    }
  }

  /** Whatever the processor does, a backlog of more than rounds times `max` is not drained. */
  lemma DrainStopsShort(cfg: Config, proc: Processor, s: Session, max: nat, rounds: nat)
    requires Ready(s) && CountersBounded(cfg, s.local) && rounds > 0
    requires OwnedBy(Joined(s).group.assignment, s.id) != {}
    requires Backlog(s) > rounds * max
    ensures !Drained(Drain(cfg, proc, s, max, rounds, NoReport()).0)
  {
    hide Drain, SettledOn, CountersBounded, Drained, Backlog, Joined, OwnedBy, Rebalanced;
    DrainLeaves(cfg, proc, s, max, rounds, NoReport());
    DrainedIsNoBacklog(Drain(cfg, proc, s, max, rounds, NoReport()).0);
  }

  /**
   Exactly when the documentation is right that a drain goes on until a poll returns nothing: with a
   processor that never fails, the drain leaves nothing if and only if the backlog is at most the
   number of rounds times `max`. Where the processor may fail, DrainStopsShort and DrainCompletes
   bound it from either side.
   */
  lemma DrainsExactlyWhen(cfg: Config, proc: Processor, s: Session, max: nat, rounds: nat)
    requires Ready(s) && CountersBounded(cfg, s.local) && rounds > 0
    requires OwnedBy(Joined(s).group.assignment, s.id) != {}
    requires NeverFails(proc)
    ensures Drained(Drain(cfg, proc, s, max, rounds, NoReport()).0) <==> Backlog(s) <= rounds * max
  {
    hide Drain, SettledOn, CountersBounded, Drained, Backlog, NeverFails, Joined, OwnedBy, Rebalanced;
    DrainLeaves(cfg, proc, s, max, rounds, NoReport());
    DrainedIsNoBacklog(Drain(cfg, proc, s, max, rounds, NoReport()).0);
  }

  function LongLog(record: EventRecord): (log: Log)
    ensures |log| == 10_001
  {
    seq(10_001, _ => record)
  }

  /** A lone consumer of one partition that holds 10,001 copies of a record. */
  function LongSession(record: EventRecord): Session {
    Session([LongLog(record)], [[]], Group([0], [0], map["a" := {0}]), "a", true, NewLocal(), 0)
  }

  lemma LoneOwner()
    ensures map["a" := {0}] == Rebalanced({"a"}, 1)
  {
    hide SortedIds;
    assert forall p :: OwnerOf({"a"}, p) == "a";
    assert Rebalanced({"a"}, 1)["a"] == {0};
  }

  lemma SumOfOne(n: nat)
    ensures Sum([n]) == n
  {
    assert [n][..0] == [];
  }

  /** Polling one record at a time, no drain gets through 10,001 of them, whatever they are and whatever the processor does. */
  lemma LongBacklogIsLeft(cfg: Config, proc: Processor, record: EventRecord)
    ensures Ready(LongSession(record)) && Backlog(LongSession(record)) == 10_001
    ensures !Drained(Drain(cfg, proc, LongSession(record), 1, 10_000, NoReport()).0)
  {
    hide Drain, Sum, LongLog, Drained;
    var s := LongSession(record);
    LoneOwner();
    assert |LongLog(record)| == 10_001;
    assert s.Valid();
    assert OwnedBy(Joined(s).group.assignment, s.id) == {0};
    assert Beyond(s.logs, {0}, s.group.committed) == [10_001];
    SumOfOne(10_001);
    DrainStopsShort(cfg, proc, s, 1, 10_000);
  }
}
