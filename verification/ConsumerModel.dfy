/**
 The consumer's poll-process-commit cycle as functions on values (eventbus/consumer.py): what one
 record's handling does, what a whole batch does, and what is then committed and rewound.
 */
module ConsumerModel {
  import opened Prelude
  import opened EventTypes
  import opened BrokerModel

  datatype Transaction = Transaction(signature: string)

  datatype Verdict = Trusted | Untrusted(detail: string) | BadSignature(detail: string)
  datatype Decoding = Decoded(agent: string, transaction: Transaction) | Undecodable(detail: string)

  /** How a call of the processor ends: normally, with the poison exception, or with any other. */
  datatype Outcome = Returned | Poisoned(detail: string) | Failed(detail: string)

  /** What the consumer is configured with. Verification, decoding and hashing are deterministic. */
  datatype Config = Config(
    hash: string -> nat,
    verify: (seq<Byte>, map<string, string>) -> Verdict,
    decode: seq<Byte> -> Decoding,
    topic: string,
    maxRetries: int)

  /** The processor: how its n-th call ends. Nothing is assumed about it. */
  type Processor = (nat, string, Transaction) -> Outcome

  /**
   One instance's own state: the signatures it has processed and its retry counters, with two
   histories that the code does not keep: the signatures its processor returned normally for, in
   order, and how often its processor has failed on each offset.
   */
  datatype Local = Local(
    seen: set<string>,
    retries: map<(nat, nat), nat>,
    returned: seq<string>,
    failures: map<(nat, nat), nat>)

  function NewLocal(): Local { Local({}, map[], [], map[]) }

  function Count(m: map<(nat, nat), nat>, k: (nat, nat)): nat {
    if k in m then m[k] else 0
  }

  /** The transaction of a record that is verified and decodes. */
  function Genuine(cfg: Config, record: EventRecord): Option<Transaction> {
    if cfg.verify(record.value, record.headers).Trusted? && cfg.decode(record.value).Decoded?
    then Some(cfg.decode(record.value).transaction)
    else None
  }

  // ---- one record ----

  /** What `_handle` does: the new local state, whether the record is done, and its dead-letter copy if any. */
  datatype Handling = Handling(local: Local, done: bool, letter: Option<EventRecord>)

  function DeadLettered(cfg: Config, l: Local, c: ConsumedRecord, reason: string): Handling {
    Handling(l, true, Some(c.record.DeadLetteredFrom(cfg.topic, reason)))
  }

  predicate CallsProcessor(cfg: Config, l: Local, c: ConsumedRecord) {
    var tx := Genuine(cfg, c.record);
    tx.Some? && tx.value.signature !in l.seen
  }

  function AfterProcessor(cfg: Config, l: Local, c: ConsumedRecord, tx: Transaction, outcome: Outcome): Handling {
    var k := (c.partition, c.offset);
    match outcome
    case Returned =>
      Handling(l.(seen := l.seen + {tx.signature}, retries := l.retries - {k}, returned := l.returned + [tx.signature]), true, None)
    case Poisoned(detail) =>
      DeadLettered(cfg, l.(retries := l.retries - {k}), c, "poison: " + detail)
    case Failed(detail) =>
      var attempts := Count(l.retries, k) + 1;
      var l' := l.(failures := l.failures[k := Count(l.failures, k) + 1]);
      if attempts > cfg.maxRetries then
        DeadLettered(cfg, l'.(retries := l.retries - {k}), c, "max retries: " + detail)
      else
        Handling(l'.(retries := l.retries[k := attempts]), false, None)
  }

  function HandleRecord(cfg: Config, l: Local, c: ConsumedRecord, outcome: Outcome): Handling {
    match cfg.verify(c.record.value, c.record.headers)
    case Untrusted(detail) => DeadLettered(cfg, l, c, "untrusted producer: " + detail)
    case BadSignature(detail) => DeadLettered(cfg, l, c, "bad signature: " + detail)
    case Trusted =>
      match cfg.decode(c.record.value)
      case Undecodable(detail) => DeadLettered(cfg, l, c, "decode failed: " + detail)
      case Decoded(_, tx) =>
        if tx.signature in l.seen then Handling(l, true, None)
        else AfterProcessor(cfg, l, c, tx, outcome)
  }

  /** Why a record is dead-lettered, in the words of its header; none if it is not. */
  function Complaint(cfg: Config, l: Local, c: ConsumedRecord, outcome: Outcome): Option<string> {
    var verdict, decoding := cfg.verify(c.record.value, c.record.headers), cfg.decode(c.record.value);
    if verdict.Untrusted? then Some("untrusted producer: " + verdict.detail)
    else if verdict.BadSignature? then Some("bad signature: " + verdict.detail)
    else if decoding.Undecodable? then Some("decode failed: " + decoding.detail)
    else if decoding.transaction.signature in l.seen then None
    else if outcome.Poisoned? then Some("poison: " + outcome.detail)
    else if outcome.Failed? && Count(l.retries, (c.partition, c.offset)) >= cfg.maxRetries then Some("max retries: " + outcome.detail)
    else None
  }

  /**
   Every outcome of a record's handling. A copy goes to the dead-letter topic exactly when there is a
   complaint, and carries it; a duplicate changes nothing and is done; the processor is called exactly
   for a trusted, decodable record with an unseen signature, which is seen from then on if and only if
   the call returned; and only a failure with retries left is not done, its counter one higher.
   */
  lemma EveryOutcome(cfg: Config, l: Local, c: ConsumedRecord, outcome: Outcome)
    ensures var h := HandleRecord(cfg, l, c, outcome);
      var verdict, decoding := cfg.verify(c.record.value, c.record.headers), cfg.decode(c.record.value);
      var complaint := Complaint(cfg, l, c, outcome);
      var k := (c.partition, c.offset);
      var called := verdict.Trusted? && decoding.Decoded? && decoding.transaction.signature !in l.seen;
      && (h.letter.Some? <==> complaint.Some?)
      && (complaint.Some? ==> h.done && h.letter == Some(c.record.DeadLetteredFrom(cfg.topic, complaint.value)))
      && (CallsProcessor(cfg, l, c) <==> called)
      && (!called ==> h.done && h.local == l)
      && (called ==> h.local.seen == l.seen + (if outcome.Returned? then {decoding.transaction.signature} else {}))
      && (h.done <==> !(called && outcome.Failed? && complaint.None?))
      && (called ==> Count(h.local.retries, k) == if h.done then 0 else Count(l.retries, k) + 1)
  {
  }

  // ---- one batch ----

  /** A batch under way: what is left of it, how far each partition may be committed, what must be rewound. */
  datatype Work = Work(local: Local, pending: seq<ConsumedRecord>, frontier: map<nat, nat>, seekBack: set<nat>)

  /** What becomes of the next record of a batch. */
  datatype Fate = Skipped | Retried | Processed | Quarantined(letter: EventRecord)

  datatype Advance = Advance(work: Work, fate: Fate)

  function HandleNext(cfg: Config, w: Work, outcome: Outcome): Advance
    requires w.pending != []
  {
    var c := w.pending[0];
    if c.partition in w.seekBack then
      Advance(w.(pending := w.pending[1..]), Skipped)
    else
      var h := HandleRecord(cfg, w.local, c, outcome);
      if h.done then
        var fate := match h.letter case Some(copy) => Quarantined(copy) case None => Processed;
        Advance(Work(h.local, w.pending[1..], w.frontier[c.partition := c.offset + 1], w.seekBack), fate)
      else
        Advance(Work(h.local, w.pending[1..], w.frontier, w.seekBack + {c.partition}), Retried)
  }

  /** A batch under way with its counters, its dead-letter copies in order, and the processor calls made so far. */
  datatype Cycle = Cycle(work: Work, letters: seq<EventRecord>, calls: nat, processed: nat, deadLettered: nat, retried: nat)

  function AnswerTo(cfg: Config, proc: Processor, cy: Cycle): Outcome
    requires cy.work.pending != []
  {
    match cfg.decode(cy.work.pending[0].record.value)
    case Decoded(agent, tx) => proc(cy.calls, agent, tx)
    case Undecodable(_) => Returned
  }

  function CycleStep(cfg: Config, proc: Processor, cy: Cycle): Cycle
    requires cy.work.pending != []
  {
    var c := cy.work.pending[0];
    var a := HandleNext(cfg, cy.work, AnswerTo(cfg, proc, cy));
    var called := c.partition !in cy.work.seekBack && CallsProcessor(cfg, cy.work.local, c);
    var cy' := cy.(work := a.work, calls := if called then cy.calls + 1 else cy.calls);
    match a.fate
    case Skipped => cy'
    case Retried => cy'.(retried := cy.retried + 1)
    case Processed => cy'.(processed := cy.processed + 1)
    case Quarantined(copy) => cy'.(deadLettered := cy.deadLettered + 1, letters := cy.letters + [copy])
  }

  function Finish(cfg: Config, proc: Processor, cy: Cycle): (r: Cycle)
    ensures r.work.pending == []
    decreases |cy.work.pending|
  {
    if cy.work.pending == [] then cy else Finish(cfg, proc, CycleStep(cfg, proc, cy))
  }

  function NewCycle(l: Local, batch: seq<ConsumedRecord>, calls: nat): Cycle {
    Cycle(Work(l, batch, map[], {}), [], calls, 0, 0, 0)
  }

  /** After the batch: commit the frontier, then rewind the partitions with a record to retry. */
  function Settle(g: Group, w: Work): Group
    requires |g.committed| == |g.position|
  {
    SeekToCommitted(Commit(g, w.frontier), w.seekBack)
  }

  // ---- one consumer at work ----

  /** Everything `consume` reads and writes: two topics, one group, and the instance's own state. */
  datatype Session = Session(
    logs: TopicLogs, dead: TopicLogs, group: Group,
    id: string, joined: bool, local: Local, calls: nat)
  {
    ghost predicate Valid() {
      && |logs| >= 1 && |dead| >= 1 && group.Sized(|logs|)
      && group.assignment == Rebalanced(group.assignment.Keys, |logs|)
    }
  }

  datatype ConsumeReport = ConsumeReport(
    polled: nat, processed: nat, deadLettered: nat, retried: nat, committedThrough: map<nat, nat>)

  function Joined(s: Session): Session {
    if s.joined then s else s.(group := JoinGroup(s.group, s.id), joined := true)
  }

  lemma OwnedInRange(s: Session, id: string)
    requires s.Valid()
    ensures forall p :: p in OwnedBy(s.group.assignment, id) ==> p < |s.logs|
  {
  }

  /** One poll-process-commit cycle. */
  function Consume(cfg: Config, proc: Processor, s: Session, max: int): (r: (Session, Result<ConsumeReport, BrokerError>))
    requires s.Valid()
    ensures r.0.Valid()
  {
    var s1 := Joined(s);
    OwnedInRange(s1, s1.id);
    if OwnedBy(s1.group.assignment, s1.id) == {} then (s1, Err(DeliveryError))
    else
      var batch := Delivery(s1.logs, cfg.topic, s1.group, s1.id, max);
      var end := Finish(cfg, proc, NewCycle(s1.local, batch, s1.calls));
      var s2 := s1.(
        dead := AppendAll(s1.dead, cfg.hash, end.letters),
        group := Settle(Polled(s1.group, batch), end.work),
        local := end.work.local, calls := end.calls);
      (s2, Ok(ConsumeReport(|batch|, end.processed, end.deadLettered, end.retried, end.work.frontier)))
  }

  function AddReport(a: ConsumeReport, b: ConsumeReport): ConsumeReport {
    ConsumeReport(a.polled + b.polled, a.processed + b.processed, a.deadLettered + b.deadLettered,
      a.retried + b.retried, a.committedThrough + b.committedThrough)
  }

  function NoReport(): ConsumeReport { ConsumeReport(0, 0, 0, 0, map[]) }

  predicate DidNothing(r: ConsumeReport) {
    r.processed == 0 && r.deadLettered == 0 && r.retried == 0
  }

  /** `consume_until_empty` with at most `rounds` cycles left and `acc` already reported. */
  function Drain(cfg: Config, proc: Processor, s: Session, max: int, rounds: nat, acc: ConsumeReport): (r: (Session, Result<ConsumeReport, BrokerError>))
    requires s.Valid()
    decreases rounds
  {
    if rounds == 0 then (s, Ok(acc))
    else
      var (s1, r) := Consume(cfg, proc, s, max);
      match r
      case Err(e) => (s1, Err(e))
      case Ok(report) =>
        if report.polled == 0 then (s1, Ok(acc))
        else if DidNothing(report) then (s1, Ok(AddReport(acc, report)))
        else Drain(cfg, proc, s1, max, rounds - 1, AddReport(acc, report))
  }
}
