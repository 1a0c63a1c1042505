/** The detection consumer, an object over the broker (eventbus/consumer.py), proved against ConsumerModel. */
module Consumer {
  import opened Prelude
  import opened EventTypes
  import opened BrokerModel
  import opened Broker
  import opened ConsumerModel

  /** The local variables of `consume`. */
  datatype Tally = Tally(processed: nat, deadLettered: nat, retried: nat, frontier: map<nat, nat>, seekBack: set<nat>)

  lemma EmptySettlement(g: Group, w: Work)
    requires |g.committed| == |g.position|
    ensures w.frontier == map[] ==> BrokerModel.Commit(g, w.frontier) == g
    ensures w.seekBack == {} ==> forall g1: Group :: |g1.committed| == |g1.position| ==> SeekToCommitted(g1, w.seekBack) == g1
  {
    assert w.frontier == map[] ==> BrokerModel.Commit(g, w.frontier).committed == g.committed;
    if w.seekBack == {} {
      forall g1: Group | |g1.committed| == |g1.position| ensures SeekToCommitted(g1, w.seekBack) == g1 {
        assert SeekToCommitted(g1, w.seekBack).position == g1.position;
      }
    }
  }

  /** An empty poll leaves everything as it was. */
  lemma NothingToDo(cfg: Config, proc: Processor, s: Session)
    requires s.Valid()
    ensures var end := Finish(cfg, proc, NewCycle(s.local, [], s.calls));
      && end == NewCycle(s.local, [], s.calls)
      && Polled(s.group, []) == s.group && Settle(s.group, end.work) == s.group
      && AppendAll(s.dead, cfg.hash, end.letters) == s.dead
  {
    assert Polled(s.group, []).position == s.group.position;
    var settled := Settle(s.group, Work(s.local, [], map[], {}));
    assert settled.committed == s.group.committed && settled.position == s.group.position;
  }

  /** The three ways a cycle can go: no partition to poll, nothing unread, or a batch to work off. */
  lemma ConsumeCases(cfg: Config, proc: Processor, s0: Session, max: int)
    requires s0.Valid()
    ensures var s := Joined(s0);
      if OwnedBy(s.group.assignment, s.id) == {} then Consume(cfg, proc, s0, max) == (s, Err(DeliveryError))
      else
        && (forall p :: p in OwnedBy(s.group.assignment, s.id) ==> p < |s.logs|)
        && var batch := Delivery(s.logs, cfg.topic, s.group, s.id, max);
        var g := Polled(s.group, batch);
        if batch == [] then
          g == s.group && Consume(cfg, proc, s0, max) == (s, Ok(ConsumeReport(0, 0, 0, 0, map[])))
        else
          var end := Finish(cfg, proc, NewCycle(s.local, batch, s.calls));
          var g1 := if end.work.frontier == map[] then g else BrokerModel.Commit(g, end.work.frontier);
          var g2 := if end.work.seekBack == {} then g1 else SeekToCommitted(g1, end.work.seekBack);
          Consume(cfg, proc, s0, max) == (
            s.(dead := AppendAll(s.dead, cfg.hash, end.letters), group := g2, local := end.work.local, calls := end.calls),
            Ok(ConsumeReport(|batch|, end.processed, end.deadLettered, end.retried, end.work.frontier)))
  {
    hide Rebalanced, OwnerOf, Append, Slice, Unread;
    var s := Joined(s0);
    ConsumerModel.OwnedInRange(s, s.id);
    if OwnedBy(s.group.assignment, s.id) != {} {
      var batch := Delivery(s.logs, cfg.topic, s.group, s.id, max);
      if batch == [] { NothingToDo(cfg, proc, s); }
      var g := Polled(s.group, batch);
      var end := Finish(cfg, proc, NewCycle(s.local, batch, s.calls));
      EmptySettlement(g, end.work);
    }
  }

  lemma AppendedNone(logs: TopicLogs, hash: string -> nat)
    requires |logs| >= 1
    ensures AppendAll(logs, hash, []) == logs
  {
  }

  lemma {:induction false} AppendedMore(logs: TopicLogs, hash: string -> nat, a: seq<EventRecord>, b: seq<EventRecord>)
    requires |logs| >= 1
    ensures AppendAll(logs, hash, a + b) == AppendAll(AppendAll(logs, hash, a), hash, b)
    decreases |b|
  {
    if b == [] {
      assert a + b == a;
    } else {
      assert (a + b)[..|a + b| - 1] == a + b[..|b| - 1];
      AppendedMore(logs, hash, a, b[..|b| - 1]);
    }
  }

  lemma FinishStep(cfg: Config, proc: Processor, cy: Cycle)
    requires cy.work.pending != []
    ensures Finish(cfg, proc, cy) == Finish(cfg, proc, CycleStep(cfg, proc, cy))
  {
  }

  lemma FinishedAlready(cfg: Config, proc: Processor, cy: Cycle)
    requires cy.work.pending == []
    ensures Finish(cfg, proc, cy) == cy
  {
  }

  lemma AppendedOne(logs: TopicLogs, hash: string -> nat, letters: seq<EventRecord>, letter: EventRecord)
    requires |logs| >= 1
    ensures AppendAll(logs, hash, letters + [letter]) == Append(AppendAll(logs, hash, letters), hash, letter)
  {
    assert (letters + [letter])[..|letters|] == letters;
  }

  /** One step of a cycle, by what becomes of the record. */
  lemma StepCases(cfg: Config, proc: Processor, cy: Cycle)
    requires cy.work.pending != []
    ensures var c, w := cy.work.pending[0], cy.work;
      var next := CycleStep(cfg, proc, cy);
      if c.partition in w.seekBack then next == cy.(work := w.(pending := w.pending[1..]))
      else
        var outcome := match cfg.decode(c.record.value)
          case Decoded(agent, tx) => proc(cy.calls, agent, tx)
          case Undecodable(_) => Returned;
        var h := HandleRecord(cfg, w.local, c, outcome);
        var calls := if CallsProcessor(cfg, w.local, c) then cy.calls + 1 else cy.calls;
        if !h.done then
          && h.letter == None
          && next == cy.(work := Work(h.local, w.pending[1..], w.frontier, w.seekBack + {c.partition}),
            calls := calls, retried := cy.retried + 1)
        else
          var work := Work(h.local, w.pending[1..], w.frontier[c.partition := c.offset + 1], w.seekBack);
          if h.letter.Some? then
            next == cy.(work := work, calls := calls, deadLettered := cy.deadLettered + 1, letters := cy.letters + [h.letter.value])
          else
            next == cy.(work := work, calls := calls, processed := cy.processed + 1)
  {
  }

  class DetectionConsumer {
    const broker: InMemoryBroker
    const group: string
    const consumerId: string
    const processor: Processor
    const cfg: Config
    const deadLetterTopic: string

    var seenSignatures: set<string>
    var retryCounts: map<(nat, nat), nat>
    var joined: bool
    /** How often the processor has been called: what its answers may depend on. */
    var calls: nat

    ghost var returned: seq<string>
    ghost var failures: map<(nat, nat), nat>

    ghost predicate Valid()
      reads this, broker
    {
      && broker.Valid() && cfg.hash == broker.hash && cfg.topic != deadLetterTopic
      && cfg.topic in broker.topics && deadLetterTopic in broker.topics
      && Session().Valid()
    }

    ghost function LocalState(): Local
      reads this
    {
      Local(seenSignatures, retryCounts, returned, failures)
    }

    ghost function Session(): Session
      requires cfg.topic in broker.topics && deadLetterTopic in broker.topics
      reads this, broker
    {
      ConsumerModel.Session(broker.topics[cfg.topic], broker.topics[deadLetterTopic],
        broker.View(cfg.topic, group), consumerId, joined, LocalState(), calls)
    }

    /** Nothing outside this consumer's topics and group has changed. */
    twostate predicate OthersUntouched()
      reads broker
    {
      && broker.topics - {deadLetterTopic} == old(broker.topics) - {deadLetterTopic}
      && broker.groups - {(cfg.topic, group)} == old(broker.groups) - {(cfg.topic, group)}
    }

    constructor (broker: InMemoryBroker, group: string, consumerId: string, processor: Processor,
                 cfg: Config, deadLetterTopic: string)
      requires broker.Valid() && cfg.hash == broker.hash && cfg.topic != deadLetterTopic
      modifies broker
      ensures Valid()
      ensures this.broker == broker && this.group == group && this.consumerId == consumerId
      ensures this.processor == processor && this.cfg == cfg && this.deadLetterTopic == deadLetterTopic
      ensures !joined && LocalState() == NewLocal() && calls == 0
      ensures broker.groups == old(broker.groups)
      ensures forall t :: t in broker.topics <==> t in old(broker.topics) || t == cfg.topic || t == deadLetterTopic
      ensures forall t :: t in broker.topics ==>
        broker.topics[t] == if t in old(broker.topics) then old(broker.topics)[t] else seq(if t == cfg.topic then 8 else 4, _ => [])
    {
      this.broker, this.group, this.consumerId := broker, group, consumerId;
      this.processor, this.cfg, this.deadLetterTopic := processor, cfg, deadLetterTopic;
      seenSignatures, retryCounts, joined, calls := {}, map[], false, 0;
      returned, failures := [], map[];
      new;
      hide Rebalanced, OwnerOf;
      var a := broker.CreateTopic(cfg.topic, Some(8));
      var b := broker.CreateTopic(deadLetterTopic, Some(4));
    }

    // ---- group membership ----

    method Join() returns (dealt: set<nat>)
      requires Valid()
      modifies this`joined, broker
      ensures Valid() && OthersUntouched()
      ensures Session() == old(Session()).(group := JoinGroup(old(Session().group), consumerId), joined := true)
      ensures dealt == OwnedBy(Session().group.assignment, consumerId)
    {
      var r := broker.JoinGroup(cfg.topic, group, consumerId);
      joined := true;
      dealt := r.value;
    }

    method Leave()
      requires Valid()
      modifies this`joined, broker
      ensures Valid() && OthersUntouched()
      ensures Session() == if old(joined)
        then old(Session()).(group := LeaveGroup(old(Session().group), consumerId), joined := false)
        else old(Session())
    {
      if joined {
        broker.LeaveGroup(cfg.topic, group, consumerId);
        joined := false;
      }
    }

    // ---- one record ----

    method DeadLetter(record: EventRecord, reason: string)
      requires Valid()
      modifies broker`topics
      ensures Valid()
      ensures broker.topics == old(WithLetter(Some(record.DeadLetteredFrom(cfg.topic, reason))))
    {
      var r := broker.Produce(deadLetterTopic, record.DeadLetteredFrom(cfg.topic, reason));
    }

    /** The topics once a dead-letter copy, if there is one, has been produced. */
    ghost function WithLetter(letter: Option<EventRecord>): map<string, TopicLogs>
      requires deadLetterTopic in broker.topics && |broker.topics[deadLetterTopic]| >= 1
      reads this, broker
    {
      if letter.None? then broker.topics
      else broker.topics[deadLetterTopic := Append(broker.topics[deadLetterTopic], cfg.hash, letter.value)]
    }

    /** Handle one record: done or not, dead-lettered or not, and the retries made (0 or 1). */
    method Handle(c: ConsumedRecord) returns (done: bool, deadLettered: bool, retried: nat)
      requires Valid()
      modifies this`seenSignatures, this`retryCounts, this`calls, this`returned, this`failures, broker`topics
      ensures Valid()
      ensures var outcome := match cfg.decode(c.record.value)
          case Decoded(agent, tx) => processor(old(calls), agent, tx)
          case Undecodable(_) => Returned;
        var h := HandleRecord(cfg, old(LocalState()), c, outcome);
        && LocalState() == h.local && broker.topics == old(WithLetter(h.letter))
        && done == h.done && deadLettered == h.letter.Some? && retried == (if h.done then 0 else 1)
        && calls == if CallsProcessor(cfg, old(LocalState()), c) then old(calls) + 1 else old(calls)
    {
      hide Rebalanced, OwnerOf, Append, AfterProcessor;
      match cfg.verify(c.record.value, c.record.headers)
      case Untrusted(detail) =>
        DeadLetter(c.record, "untrusted producer: " + detail);
        return true, true, 0;
      case BadSignature(detail) =>
        DeadLetter(c.record, "bad signature: " + detail);
        return true, true, 0;
      case Trusted =>
      match cfg.decode(c.record.value)
      case Undecodable(detail) =>
        DeadLetter(c.record, "decode failed: " + detail);
        return true, true, 0;
      case Decoded(agent, tx) =>
        if tx.signature in seenSignatures { return true, false, 0; }
        done, deadLettered, retried := Process(c, agent, tx);
    }

    /** Hand a verified, decoded, unseen record to the processor and act on how the call ends. */
    method Process(c: ConsumedRecord, agent: string, tx: Transaction) returns (done: bool, deadLettered: bool, retried: nat)
      requires Valid()
      modifies this`seenSignatures, this`retryCounts, this`calls, this`returned, this`failures, broker`topics
      ensures Valid()
      ensures var h := AfterProcessor(cfg, old(LocalState()), c, tx, processor(old(calls), agent, tx));
        && LocalState() == h.local && broker.topics == old(WithLetter(h.letter))
        && done == h.done && deadLettered == h.letter.Some? && retried == (if h.done then 0 else 1)
        && calls == old(calls) + 1
    {
      hide Rebalanced, OwnerOf, Append, EventRecord.DeadLetteredFrom, GroupState.View, InMemoryBroker.StateOf;
      var k := (c.partition, c.offset);
      var outcome := processor(calls, agent, tx);
      calls := calls + 1;
      match outcome
      case Poisoned(detail) =>
        DeadLetter(c.record, "poison: " + detail);
        retryCounts := retryCounts - {k};
        return true, true, 0;
      case Failed(detail) =>
        failures := failures[k := Count(failures, k) + 1];
        var attempts := Count(retryCounts, k) + 1;
        if attempts > cfg.maxRetries {
          DeadLetter(c.record, "max retries: " + detail);
          retryCounts := retryCounts - {k};
          return true, true, 0;
        }
        retryCounts := retryCounts[k := attempts];
        return false, false, 1;
      case Returned =>
        seenSignatures := seenSignatures + {tx.signature};
        returned := returned + [tx.signature];
        retryCounts := retryCounts - {k};
        return true, false, 0;
    }

    // ---- the cycle ----

    /** The counters and collections that one run over a batch keeps. */
    ghost function CycleNow(pending: seq<ConsumedRecord>, letters: seq<EventRecord>, t: Tally): Cycle
      reads this
    {
      Cycle(Work(LocalState(), pending, t.frontier, t.seekBack), letters, calls, t.processed, t.deadLettered, t.retried)
    }

    /** The loop body: handle one record of the batch unless its partition already waits for a retry. */
    method HandleInBatch(c: ConsumedRecord, before: Tally, ghost rest: seq<ConsumedRecord>, ghost letters: seq<EventRecord>)
      returns (after: Tally, ghost letters': seq<EventRecord>)
      requires Valid()
      modifies this`seenSignatures, this`retryCounts, this`calls, this`returned, this`failures, broker`topics
      ensures Valid()
      ensures CycleNow(rest, letters', after) == CycleStep(cfg, processor, old(CycleNow([c] + rest, letters, before)))
      ensures letters <= letters' && broker.topics == old(WithLetters(letters'[|letters|..]))
    {
      hide Rebalanced, OwnerOf, Append, CycleStep, HandleRecord, AfterProcessor, CallsProcessor, HandleNext, GroupState.View, InMemoryBroker.StateOf;
      assert letters[|letters|..] == [];
      StepCases(cfg, processor, CycleNow([c] + rest, letters, before));
      AppendedNone(broker.topics[deadLetterTopic], cfg.hash);
      after, letters' := before, letters;
      if c.partition in before.seekBack { return; }
      ghost var outcome := match cfg.decode(c.record.value)
        case Decoded(agent, tx) => processor(calls, agent, tx)
        case Undecodable(_) => Returned;
      ghost var h := HandleRecord(cfg, LocalState(), c, outcome);
      var done, dl, retried := Handle(c);
      assert ([c] + rest)[1..] == rest;
      if !done {
        after := after.(retried := before.retried + retried, seekBack := before.seekBack + {c.partition});
      } else if dl {
        letters' := letters + [h.letter.value];
        AppendedOne(old(broker.topics[deadLetterTopic]), cfg.hash, [], h.letter.value);
        assert letters'[|letters|..] == [] + [h.letter.value];
        after := after.(deadLettered := before.deadLettered + 1, frontier := before.frontier[c.partition := c.offset + 1]);
      } else {
        after := after.(processed := before.processed + 1, frontier := before.frontier[c.partition := c.offset + 1]);
      }
    }

    /** The loop over a polled batch. */
    method HandleBatch(batch: seq<ConsumedRecord>) returns (t: Tally)
      requires Valid()
      modifies this`seenSignatures, this`retryCounts, this`calls, this`returned, this`failures, broker`topics
      ensures Valid()
      ensures var end := Finish(cfg, processor, NewCycle(old(LocalState()), batch, old(calls)));
        CycleNow([], end.letters, t) == end && broker.topics == old(WithLetters(end.letters))
    {
      hide Rebalanced, OwnerOf, Append, AppendAll, Finish, CycleStep;
      t := Tally(0, 0, 0, map[], {});
      ghost var letters: seq<EventRecord> := [];
      ghost var start := NewCycle(LocalState(), batch, calls);
      AppendedNone(broker.topics[deadLetterTopic], cfg.hash);
      assert batch[0..] == batch;
      for i := 0 to |batch|
        invariant Valid()
        invariant broker.topics == old(WithLetters(letters))
        invariant Finish(cfg, processor, start) == Finish(cfg, processor, CycleNow(batch[i..], letters, t))
      {
        assert batch[i..] == [batch[i]] + batch[i + 1..];
        FinishStep(cfg, processor, CycleNow(batch[i..], letters, t));
        ghost var known := letters;
        t, letters := HandleInBatch(batch[i], t, batch[i + 1..], letters);
        AppendedMore(old(broker.topics[deadLetterTopic]), cfg.hash, known, letters[|known|..]);
        assert known + letters[|known|..] == letters;
      }
      FinishedAlready(cfg, processor, CycleNow([], letters, t));
    }

    ghost function WithLetters(letters: seq<EventRecord>): map<string, TopicLogs>
      requires deadLetterTopic in broker.topics && |broker.topics[deadLetterTopic]| >= 1
      reads this, broker
    {
      broker.topics[deadLetterTopic := AppendAll(broker.topics[deadLetterTopic], cfg.hash, letters)]
    }

    /** The end of a cycle: commit what was handled, then rewind what must be retried. */
    method CommitAndRewind(frontier: map<nat, nat>, seekBack: set<nat>)
      requires Valid()
      modifies broker`groups
      ensures Valid() && OthersUntouched()
      ensures var g := old(broker.View(cfg.topic, group));
        var g1 := if frontier == map[] then g else BrokerModel.Commit(g, frontier);
        broker.View(cfg.topic, group) == if seekBack == {} then g1 else SeekToCommitted(g1, seekBack)
    {
      hide Rebalanced, OwnerOf;
      if frontier != map[] {
        broker.Commit(cfg.topic, group, frontier);
      }
      assert OthersUntouched();
      if seekBack != {} {
        broker.SeekToCommitted(cfg.topic, group, seekBack);
      }
    }

    /** What follows a poll that delivered something: process, then commit, then rewind. */
    method WorkOff(batch: seq<ConsumedRecord>) returns (report: ConsumeReport)
      requires Valid()
      modifies this`seenSignatures, this`retryCounts, this`calls, this`returned, this`failures, broker
      ensures Valid() && OthersUntouched()
      ensures var s := old(Session());
        var end := Finish(cfg, processor, NewCycle(s.local, batch, s.calls));
        var g1 := if end.work.frontier == map[] then s.group else BrokerModel.Commit(s.group, end.work.frontier);
        var g2 := if end.work.seekBack == {} then g1 else SeekToCommitted(g1, end.work.seekBack);
        && Session() == s.(dead := AppendAll(s.dead, cfg.hash, end.letters), group := g2, local := end.work.local, calls := end.calls)
        && report == ConsumeReport(|batch|, end.processed, end.deadLettered, end.retried, end.work.frontier)
    {
      hide Rebalanced, OwnerOf, Append, AppendAll, Finish;
      ghost var topics, groups := broker.topics, broker.groups;
      var t := HandleBatch(batch);
      assert broker.topics - {deadLetterTopic} == topics - {deadLetterTopic} && broker.groups == groups;
      CommitAndRewind(t.frontier, t.seekBack);
      report := ConsumeReport(|batch|, t.processed, t.deadLettered, t.retried, t.frontier);
    }

    /** One poll-process-commit cycle; the commit comes after the processing. */
    method Consume(max: int) returns (r: Result<ConsumeReport, BrokerError>)
      requires Valid()
      modifies this`joined, this`seenSignatures, this`retryCounts, this`calls, this`returned, this`failures, broker
      ensures Valid() && OthersUntouched()
      ensures (Session(), r) == ConsumerModel.Consume(cfg, processor, old(Session()), max)
    {
      hide Rebalanced, OwnerOf, Append, AppendAll, Finish, Slice, Unread, Delivery, ConsumerModel.Consume;
      if !joined {
        var _ := Join();
      }
      ghost var s := Session();
      ConsumeCases(cfg, processor, old(Session()), max);
      ghost var topics := broker.topics;
      var polled := broker.Poll(cfg.topic, group, consumerId, max);
      assert broker.topics == topics;
      assert OthersUntouched();
      if polled.Err? { return Err(polled.error); }
      var batch := polled.value;
      if batch == [] { return Ok(ConsumeReport(0, 0, 0, 0, map[])); }
      var report := WorkOff(batch);
      r := Ok(report);
    }

    /** Consume until a poll returns nothing, for at most 10,000 cycles; the reports are added up. */
    method ConsumeUntilEmpty(max: int) returns (r: Result<ConsumeReport, BrokerError>)
      requires Valid()
      modifies this`joined, this`seenSignatures, this`retryCounts, this`calls, this`returned, this`failures, broker
      ensures Valid() && OthersUntouched()
      ensures (Session(), r) == Drain(cfg, processor, old(Session()), max, 10_000, NoReport())
    {
      hide ConsumerModel.Consume, Rebalanced, OwnerOf, InMemoryBroker.View;
      var total := NoReport();
      var i: nat := 0;
      while i < 10_000
        invariant i <= 10_000 && Valid() && OthersUntouched()
        invariant Drain(cfg, processor, old(Session()), max, 10_000, NoReport())
          == Drain(cfg, processor, Session(), max, 10_000 - i, total)
      {
        var report := Consume(max);
        if report.Err? { return Err(report.error); }
        if report.value.polled == 0 { break; }
        total := AddReport(total, report.value);
        if DidNothing(report.value) { break; }
        i := i + 1;
      }
      r := Ok(total);
    }
  }
}
