/** What one poll-process-commit cycle conserves, keeps and makes progress on. */
module CycleLaws {
  import opened Prelude
  import opened EventTypes
  import opened BrokerModel
  import opened PollModel
  import opened ConsumerModel

  function Lengths(logs: TopicLogs): (r: seq<nat>)
    ensures |r| == |logs|
  {
    seq(|logs|, p requires 0 <= p < |logs| => |logs[p]|)
  }

  /** The records of a partition from one offset up to another, as delivered. */
  function Stretch(logs: TopicLogs, topic: string, p: nat, lo: nat, hi: nat): (r: seq<ConsumedRecord>)
    requires p < |logs| && lo <= hi <= |logs[p]|
    ensures |r| == hi - lo
  {
    seq(hi - lo, i requires 0 <= i < hi - lo => ConsumedRecord(topic, p, lo + i, logs[p][lo + i]))
  }

  /** How far a partition may be committed at this point of a batch, from committed offsets `base`. */
  function CursorAt(w: Work, base: seq<nat>, p: nat): nat
    requires p < |base|
  {
    if p in w.frontier then w.frontier[p] else base[p]
  }

  /**
   A batch in good order: for each owned partition not waiting for a retry, what is left of the
   batch is exactly the records from the partition's cursor up to its read position.
   */
  ghost predicate Aligned(logs: TopicLogs, topic: string, owned: set<nat>, base: seq<nat>, position: seq<nat>, w: Work) {
    && |base| == |position| == |logs|
    && (forall p :: p in owned ==> p < |logs| && base[p] <= position[p] <= |logs[p]|)
    && (forall p :: p in w.frontier ==> p in owned && base[p] < w.frontier[p] <= position[p])
    && w.seekBack <= owned
    && (forall p :: p in w.seekBack ==> CursorAt(w, base, p) < position[p])
    && (forall p :: p in owned && p !in w.seekBack ==>
         Slice(w.pending, p) == Stretch(logs, topic, p, CursorAt(w, base, p), position[p]))
    && (forall p: nat :: p !in owned ==> Slice(w.pending, p) == [])
  }

  /** Between cycles the consumer's partitions are read exactly as far as they are committed. */
  ghost predicate SettledOn(logs: TopicLogs, g: Group, owned: set<nat>) {
    && g.Sized(|logs|)
    && forall p :: p in owned ==> p < |logs| && g.position[p] == g.committed[p] <= |logs[p]|
  }

  lemma PollAligns(logs: TopicLogs, topic: string, g: Group, id: string, max: int, l: Local, calls: nat)
    requires SettledOn(logs, g, OwnedBy(g.assignment, id))
    ensures var batch := Delivery(logs, topic, g, id, max);
      Aligned(logs, topic, OwnedBy(g.assignment, id), g.committed, Polled(g, batch).position, NewCycle(l, batch, calls).work)
  {
    hide Delivery;
    var batch := Delivery(logs, topic, g, id, max);
    var owned := OwnedBy(g.assignment, id);
    var w := NewCycle(l, batch, calls).work;
    var position := Polled(g, batch).position;
    forall p: nat ensures p !in owned ==> Slice(batch, p) == []
      ensures p in owned ==> position[p] <= |logs[p]|
      ensures p in owned ==> Slice(batch, p) == Stretch(logs, topic, p, CursorAt(w, g.committed, p), position[p])
    {
      DeliverySlice(logs, topic, g, id, max, p);
    }
  }

  lemma SlicePop(pending: seq<ConsumedRecord>, p: nat)
    requires pending != []
    ensures Slice(pending, p) == (if pending[0].partition == p then [pending[0]] else []) + Slice(pending[1..], p)
  {
  }

  /** The next record of a batch in good order is the one at its partition's cursor. */
  lemma NextIsAtCursor(logs: TopicLogs, topic: string, owned: set<nat>, base: seq<nat>, position: seq<nat>, w: Work)
    requires Aligned(logs, topic, owned, base, position, w) && w.pending != []
    ensures var c := w.pending[0];
      && c.partition in owned
      && (c.partition !in w.seekBack ==>
           && c.offset == CursorAt(w, base, c.partition) < position[c.partition]
           && c == ConsumedRecord(topic, c.partition, c.offset, logs[c.partition][c.offset])
           && Slice(w.pending[1..], c.partition) == Stretch(logs, topic, c.partition, c.offset + 1, position[c.partition]))
  {
    hide Slice;
    var c := w.pending[0];
    SlicePop(w.pending, c.partition);
    assert Slice(w.pending, c.partition)[0] == c;
    if c.partition !in w.seekBack {
      var s := Stretch(logs, topic, c.partition, CursorAt(w, base, c.partition), position[c.partition]);
      assert s[0] == c;
      assert Slice(w.pending[1..], c.partition) == s[1..];
      assert s[1..] == Stretch(logs, topic, c.partition, c.offset + 1, position[c.partition]);
    }
  }

  /** Handling a record keeps the batch in good order, whatever the processor answers. */
  lemma HandleKeepsAligned(cfg: Config, logs: TopicLogs, owned: set<nat>, base: seq<nat>, position: seq<nat>, w: Work, outcome: Outcome)
    requires Aligned(logs, cfg.topic, owned, base, position, w) && w.pending != []
    ensures Aligned(logs, cfg.topic, owned, base, position, HandleNext(cfg, w, outcome).work)
  {
    hide Slice, HandleRecord;
    NextIsAtCursor(logs, cfg.topic, owned, base, position, w);
    var c := w.pending[0];
    var w' := HandleNext(cfg, w, outcome).work;
    forall p: nat | p != c.partition ensures Slice(w'.pending, p) == Slice(w.pending, p) { SlicePop(w.pending, p); }
  }

  function Cursors(w: Work, base: seq<nat>): (r: seq<nat>)
    ensures |r| == |base|
  {
    seq(|base|, p requires 0 <= p < |base| => CursorAt(w, base, p))
  }

  /** One done record moves one cursor by one; a skipped or retried one moves none. */
  lemma HandleMovesCursor(cfg: Config, logs: TopicLogs, owned: set<nat>, base: seq<nat>, position: seq<nat>, w: Work, outcome: Outcome)
    requires Aligned(logs, cfg.topic, owned, base, position, w) && w.pending != []
    ensures var a := HandleNext(cfg, w, outcome);
      var p := w.pending[0].partition;
      && p < |base|
      && Cursors(a.work, base) ==
        if a.fate.Skipped? || a.fate.Retried? then Cursors(w, base)
        else Cursors(w, base)[p := CursorAt(w, base, p) + 1]
  {
    hide Slice, HandleRecord;
    NextIsAtCursor(logs, cfg.topic, owned, base, position, w);
  }

  /** The bookkeeping of a cycle under way, against the batch it started with. */
  ghost predicate Balanced(base: seq<nat>, batch: seq<ConsumedRecord>, cy: Cycle) {
    && Sum(Cursors(cy.work, base)) == Sum(base) + cy.processed + cy.deadLettered
    && cy.retried == |cy.work.seekBack|
    && |cy.letters| == cy.deadLettered
    && forall p :: p in cy.work.seekBack ==> exists c :: c in batch && c.partition == p
  }

  /** What one step of a cycle counts, by what becomes of the record. */
  lemma StepCounts(cfg: Config, proc: Processor, cy: Cycle)
    requires cy.work.pending != []
    ensures var a := HandleNext(cfg, cy.work, AnswerTo(cfg, proc, cy));
      var p := cy.work.pending[0].partition;
      var next := CycleStep(cfg, proc, cy);
      && next.work == a.work && a.work.pending == cy.work.pending[1..]
      && next.processed == cy.processed + (if a.fate.Processed? then 1 else 0)
      && next.deadLettered == cy.deadLettered + (if a.fate.Quarantined? then 1 else 0)
      && |next.letters| == |cy.letters| + (if a.fate.Quarantined? then 1 else 0)
      && next.retried == cy.retried + (if a.fate.Retried? then 1 else 0)
      && next.work.seekBack == (if a.fate.Retried? then cy.work.seekBack + {p} else cy.work.seekBack)
      && (a.fate.Retried? ==> p !in cy.work.seekBack)
  {
    hide HandleRecord, AnswerTo, CallsProcessor;
  }

  lemma StepBalances(cfg: Config, proc: Processor, logs: TopicLogs, owned: set<nat>, base: seq<nat>, position: seq<nat>,
                     batch: seq<ConsumedRecord>, cy: Cycle)
    requires Aligned(logs, cfg.topic, owned, base, position, cy.work) && cy.work.pending != []
    requires Balanced(base, batch, cy) && cy.work.pending[0] in batch
    ensures Balanced(base, batch, CycleStep(cfg, proc, cy))
  {
    hide Aligned, CycleStep, HandleNext, Sum, AnswerTo;
    StepCounts(cfg, proc, cy);
    HandleMovesCursor(cfg, logs, owned, base, position, cy.work, AnswerTo(cfg, proc, cy));
    var p := cy.work.pending[0].partition;
    SumUpdate(Cursors(cy.work, base), p, CursorAt(cy.work, base, p) + 1);
  }

  /** A whole batch, from a balanced beginning to a balanced end. */
  lemma {:induction false} FinishBalances(cfg: Config, proc: Processor, logs: TopicLogs, owned: set<nat>, base: seq<nat>, position: seq<nat>,
                       batch: seq<ConsumedRecord>, cy: Cycle)
    requires Aligned(logs, cfg.topic, owned, base, position, cy.work)
    requires Balanced(base, batch, cy) && forall c :: c in cy.work.pending ==> c in batch
    ensures var end := Finish(cfg, proc, cy);
      Aligned(logs, cfg.topic, owned, base, position, end.work) && Balanced(base, batch, end)
    decreases |cy.work.pending|
  {
    hide Balanced, Aligned, CycleStep, HandleNext, AnswerTo;
    if cy.work.pending != [] {
      StepCounts(cfg, proc, cy);
      HandleKeepsAligned(cfg, logs, owned, base, position, cy.work, AnswerTo(cfg, proc, cy));
      StepBalances(cfg, proc, logs, owned, base, position, batch, cy);
      FinishBalances(cfg, proc, logs, owned, base, position, batch, CycleStep(cfg, proc, cy));
    }
  }

  /** A finished batch commits exactly the cursors and leaves its partitions settled. */
  lemma SettleSettles(logs: TopicLogs, topic: string, owned: set<nat>, g: Group, position: seq<nat>, w: Work)
    requires |g.committed| == |g.position| == |logs|
    requires Aligned(logs, topic, owned, g.committed, g.position, w) && w.pending == []
    ensures var g' := Settle(g, w);
      && g'.committed == Cursors(w, g.committed) && g'.assignment == g.assignment
      && SettledOn(logs, g', owned)
      && (forall p: nat :: p < |logs| ==> g.committed[p] <= g'.committed[p])
      && (forall p: nat :: p < |logs| && p !in owned ==> g'.committed[p] == g.committed[p] && g'.position[p] == g.position[p])
  {
  }

  // ---- conservation ----

  function SliceSizes(batch: seq<ConsumedRecord>, n: nat): (r: seq<nat>)
    ensures |r| == n
  {
    seq(n, p requires 0 <= p < n => |Slice(batch, p)|)
  }

  lemma {:induction false} ZerosSum(s: seq<nat>)
    requires forall i :: 0 <= i < |s| ==> s[i] == 0
    ensures Sum(s) == 0
  {
    if |s| > 0 { ZerosSum(s[..|s| - 1]); }
  }

  lemma {:induction false} SliceSizesSum(batch: seq<ConsumedRecord>, n: nat)
    requires forall c :: c in batch ==> c.partition < n
    ensures Sum(SliceSizes(batch, n)) == |batch|
  {
    if batch == [] {
      ZerosSum(SliceSizes(batch, n));
    } else {
      SliceSizesSum(batch[1..], n);
      var p := batch[0].partition;
      assert batch[0] in batch;
      var rest := SliceSizes(batch[1..], n);
      SumUpdate(rest, p, rest[p] + 1);
      assert SliceSizes(batch, n) == rest[p := rest[p] + 1];
    }
  }

  /** For each owned partition, how many delivered records a cycle left uncommitted. */
  function Undone(position: seq<nat>, committed: seq<nat>, owned: set<nat>): (r: seq<nat>)
    requires |position| == |committed|
    ensures |r| == |position|
  {
    seq(|position|, p requires 0 <= p < |position| =>
      if p in owned && committed[p] <= position[p] then position[p] - committed[p] else 0)
  }

  ghost predicate Ready(s: Session) {
    s.Valid() && SettledOn(s.logs, Joined(s).group, OwnedBy(Joined(s).group.assignment, s.id))
  }

  lemma StartsBalanced(base: seq<nat>, batch: seq<ConsumedRecord>, cy: Cycle)
    requires cy == NewCycle(cy.work.local, batch, cy.calls)
    ensures Balanced(base, batch, cy)
  {
    assert Cursors(cy.work, base) == base;
  }

  /** The pieces of a cycle that polled successfully. */
  lemma ConsumeParts(cfg: Config, proc: Processor, s: Session, max: int)
    returns (g: Group, owned: set<nat>, batch: seq<ConsumedRecord>, g1: Group, end: Cycle)
    requires Ready(s)
    requires Consume(cfg, proc, s, max).1.Ok?
    ensures var (s', r) := Consume(cfg, proc, s, max);
      && g == Joined(s).group && owned == OwnedBy(g.assignment, s.id)
      && (forall p :: p in owned ==> p < |s.logs|)
      && batch == Delivery(s.logs, cfg.topic, g, s.id, max) && g1 == Polled(g, batch)
      && end == Finish(cfg, proc, NewCycle(s.local, batch, s.calls))
      && s' == Joined(s).(dead := AppendAll(s.dead, cfg.hash, end.letters), group := Settle(g1, end.work),
                          local := end.work.local, calls := end.calls)
      && r.value == ConsumeReport(|batch|, end.processed, end.deadLettered, end.retried, end.work.frontier)
      && Aligned(s.logs, cfg.topic, owned, g.committed, g1.position, end.work)
      && Balanced(g.committed, batch, end)
      && s'.group.committed == Cursors(end.work, g.committed) && s'.group.assignment == g.assignment
      && SettledOn(s.logs, s'.group, owned)
  {
    hide Delivery, Finish, Slice, Rebalanced, OwnerOf, Aligned, Balanced, Settle, Cursors;
    g := Joined(s).group;
    owned := OwnedBy(g.assignment, s.id);
    batch := Delivery(s.logs, cfg.topic, g, s.id, max);
    g1 := Polled(g, batch);
    var start := NewCycle(s.local, batch, s.calls);
    end := Finish(cfg, proc, start);
    PollAligns(s.logs, cfg.topic, g, s.id, max, s.local, s.calls);
    StartsBalanced(g.committed, batch, start);
    FinishBalances(cfg, proc, s.logs, owned, g.committed, g1.position, batch, start);
    SettleSettles(s.logs, cfg.topic, owned, g1, g1.position, end.work);
  }

  lemma DeliveryInRange(logs: TopicLogs, topic: string, g: Group, id: string, max: int)
    requires g.Sized(|logs|) && forall q :: q in OwnedBy(g.assignment, id) ==> q < |logs|
    ensures forall c :: c in Delivery(logs, topic, g, id, max) ==> c.partition in OwnedBy(g.assignment, id)
  {
    hide Delivery;
    var batch := Delivery(logs, topic, g, id, max);
    forall c | c in batch ensures c.partition in OwnedBy(g.assignment, id) {
      SliceMember(batch, c.partition, c);
      DeliverySlice(logs, topic, g, id, max, c.partition);
    }
  }

  /** Partition by partition, what was delivered is what was committed and what was left. */
  lemma DoneAndUndone(g: Group, batch: seq<ConsumedRecord>, committed: seq<nat>, owned: set<nat>, done: seq<nat>, undone: seq<nat>)
    requires |g.committed| == |g.position| == |committed| == |done|
    requires undone == Undone(Polled(g, batch).position, committed, owned)
    requires forall p: nat :: p < |done| ==> g.committed[p] + done[p] == committed[p]
    requires forall p: nat :: p !in owned ==> Slice(batch, p) == []
    requires forall p: nat :: p < |done| && p !in owned ==> done[p] == 0
    requires forall p: nat :: p < |done| && p in owned ==>
      g.position[p] == g.committed[p] && committed[p] <= Polled(g, batch).position[p]
    ensures forall p :: 0 <= p < |done| ==> SliceSizes(batch, |done|)[p] == done[p] + undone[p]
  {
    hide Slice;
  }

  /** When a batch is worked off, what stays uncommitted is on the partitions waiting for a retry. */
  lemma UndoneAreRetried(logs: TopicLogs, topic: string, owned: set<nat>, base: seq<nat>, position: seq<nat>, w: Work)
    requires Aligned(logs, topic, owned, base, position, w) && w.pending == []
    ensures var undone := Undone(position, Cursors(w, base), owned);
      (set p: nat | p < |undone| && undone[p] > 0) == w.seekBack
  {
    var undone := Undone(position, Cursors(w, base), owned);
    forall p: nat | p < |undone| ensures undone[p] > 0 <==> p in w.seekBack {
      assert Slice(w.pending, p) == [];
    }
  }

  lemma {:induction false} SubsetSize<T>(a: set<T>, b: set<T>)
    requires a <= b
    ensures |a| <= |b|
  {
    if a != {} {
      var x :| x in a;
      SubsetSize(a - {x}, b - {x});
    }
  }

  /**
   Conservation. The committed offsets advance by exactly what was processed or dead-lettered. The
   delivered records that were neither are left on as many partitions as there were retries, so
   each such partition holds its retried record and the ones skipped behind it; and no partition
   outside the batch was retried.
   */
  lemma CycleConserves(cfg: Config, proc: Processor, s: Session, max: int)
    requires Ready(s)
    requires Consume(cfg, proc, s, max).1.Ok?
    ensures var (s', r) := Consume(cfg, proc, s, max);
      var g := Joined(s).group;
      var owned := OwnedBy(g.assignment, s.id);
      && (forall p :: p in owned ==> p < |s.logs|)
      && var batch := Delivery(s.logs, cfg.topic, g, s.id, max);
      && s'.group.Sized(|s.logs|)
      && var undone := Undone(Polled(g, batch).position, s'.group.committed, owned);
      && Sum(s'.group.committed) == Sum(s.group.committed) + r.value.processed + r.value.deadLettered
      && r.value.polled == r.value.processed + r.value.deadLettered + Sum(undone)
      && r.value.retried == |set p: nat | p < |undone| && undone[p] > 0|
      && r.value.retried <= |set c | c in batch :: c.partition|
      && (forall p: nat :: p < |s.logs| ==> s.group.committed[p] <= s'.group.committed[p])
  {
    hide Delivery, Finish, Rebalanced, OwnerOf, Consume, Settle, Slice;
    var g, owned, batch, g1, end := ConsumeParts(cfg, proc, s, max);
    var (s', r) := Consume(cfg, proc, s, max);
    var n := |s.logs|;
    var undone := Undone(g1.position, s'.group.committed, owned);
    var done := seq(n, p requires 0 <= p < n => s'.group.committed[p] - g.committed[p]);
    SumAdds(g.committed, done, s'.group.committed);
    DeliveryInRange(s.logs, cfg.topic, g, s.id, max);
    SliceSizesSum(batch, n);
    forall p: nat | p !in owned ensures Slice(batch, p) == [] { DeliverySlice(s.logs, cfg.topic, g, s.id, max, p); }
    DoneAndUndone(g, batch, s'.group.committed, owned, done, undone);
    SumAdds(done, undone, SliceSizes(batch, n));
    UndoneAreRetried(s.logs, cfg.topic, owned, g.committed, g1.position, end.work);
    var partitions := set c | c in batch :: c.partition;
    assert end.work.seekBack <= partitions;
    SubsetSize(end.work.seekBack, partitions);
  }
}
