/**
 What becomes of a single record over a run: when its handling is retried, when it is dead-lettered,
 and when its signature reaches the sink, in terms of how the calls of the processor on it ended.
 */
module RetryLaws {
  import opened EventTypes
  import opened BrokerModel
  import opened ConsumerModel
  import opened CycleLaws
  import opened DrainLaws
  import opened Protocol
  import opened QuietRuns
  import Consumer

  /** A record's place: its partition and offset. */
  type Place = (nat, nat)

  // ---- the calls of a run ----

  /** The step handles the record at this place, rather than skip it behind a retry. */
  ghost predicate Handles(s: System, step: Step, k: Place) {
    step.Handle? && Enabled(s, step)
    && var w := s.members[step.id].work;
    var c := w.pending[0];
    c.partition == k.0 && c.offset == k.1 && c.partition !in w.seekBack
  }

  /** And its handling calls the processor. */
  ghost predicate Calls(cfg: Config, s: System, step: Step, k: Place) {
    Handles(s, step, k) && CallsProcessor(cfg, s.members[step.id].work.local, s.members[step.id].work.pending[0])
  }

  /** How often instance `id` has failed at a place after one more step; a crash ends the instance. */
  ghost function FailuresAfter(cfg: Config, s: System, step: Step, id: string, k: Place, before: nat): nat {
    if step == Crash(id) then 0
    else if Calls(cfg, s, step, k) && step.id == id && step.outcome.Failed? then before + 1
    else before
  }

  /** The same after a run. */
  ghost function Failures(cfg: Config, s: System, steps: seq<Step>, id: string, k: Place, before: nat): nat
    decreases |steps|
  {
    if steps == [] || !Sizes(s) || !Enabled(s, steps[0]) then before
    else Failures(cfg, Apply(cfg, s, steps[0]), steps[1..], id, k, FailuresAfter(cfg, s, steps[0], id, k, before))
  }

  ghost function FailuresKept(s: System, id: string, k: Place): nat {
    if id in s.members then Count(s.members[id].Own().failures, k) else 0
  }

  lemma StepCountsFailures(cfg: Config, s: System, step: Step, id: string, k: Place)
    requires Sizes(s) && Enabled(s, step)
    ensures FailuresKept(Apply(cfg, s, step), id, k) == FailuresAfter(cfg, s, step, id, k, FailuresKept(s, id, k))
  {
    hide Delivery, Rebalanced, BrokerModel.Commit, Append, Polled;
  }

  /** The history of failures is the number of calls that failed since the instance came to life. */
  lemma {:induction false} FailuresAreCounted(cfg: Config, s: System, steps: seq<Step>, t: System, id: string, k: Place)
    requires Run(cfg, s, steps, t)
    ensures FailuresKept(t, id, k) == Failures(cfg, s, steps, id, k, FailuresKept(s, id, k))
    decreases |steps|
  {
    hide Apply, Enabled, FailuresKept, FailuresAfter;
    if steps != [] {
      StepCountsFailures(cfg, s, steps[0], id, k);
      FailuresAreCounted(cfg, Apply(cfg, s, steps[0]), steps[1..], t, id, k);
    }
  }

  // ---- one call ----

  /** In a quiet state the next record's failures so far are what its counter says. */
  lemma CounterIsFailures(cfg: Config, s: System, step: Step, k: Place)
    requires QuietInv(cfg, s) && Handles(s, step, k)
    ensures var w := s.members[step.id].work;
      && k.0 < |s.logs| && k.1 < |s.logs[k.0]| && w.pending[0].record == s.logs[k.0][k.1]
      && Count(w.local.retries, k) == Count(w.local.failures, k) <= Limit(cfg)
  {
    hide Covered, SinkGenuine, Routed, HandledAccounted, MemberSafe, Rebalanced, Slice, Gapless, Bounds;
    var id := step.id;
    NextInOrder(cfg, s, id);
    assert Tidy(cfg, s, id);
    assert Tallied(cfg, s.members[id].Own(), MemberCursors(s, s.members[id]));
    NextIsAtCursor(s.logs, cfg.topic, OwnedBy(s.group.assignment, id), s.group.committed, s.group.position, s.members[id].work);
  }

  lemma {:induction false} GuardedIsRun(cfg: Config, s: System, steps: seq<Step>, t: System)
    requires GuardedRun(cfg, s, steps, t)
    ensures Run(cfg, s, steps, t)
    decreases |steps|
  {
    hide Apply, Enabled, SafeMove;
    if steps != [] { GuardedIsRun(cfg, Apply(cfg, s, steps[0]), steps[1..], t); }
  }

  /**
   Retries. In a quiet run, when the processor is called on a record and fails, the record is retried
   if and only if this instance has failed on it fewer than `max_retries` times before; otherwise it
   is dead-lettered.
   */
  lemma RetriedExactlyWhen(cfg: Config, partitions: nat, deadPartitions: nat, steps: seq<Step>, s: System, step: Step, k: Place)
    requires partitions >= 1 && deadPartitions >= 1
    requires QuietRun(cfg, Start(partitions, deadPartitions), steps, s)
    requires Calls(cfg, s, step, k) && step.outcome.Failed?
    ensures var fate := HandleNext(cfg, s.members[step.id].work, step.outcome).fate;
      var failures := Failures(cfg, Start(partitions, deadPartitions), steps, step.id, k, 0);
      && (fate.Retried? <==> failures < Limit(cfg))
      && (fate.Quarantined? <==> failures >= Limit(cfg))
  {
    hide QuietRun, GuardedRun, Run, Inv, Tidy, Tallied, Failures;
    StartIsQuiet(cfg, partitions, deadPartitions);
    QuietRunKeeps(cfg, Start(partitions, deadPartitions), steps, s);
    GuardedIsRun(cfg, Start(partitions, deadPartitions), steps, s);
    FailuresAreCounted(cfg, Start(partitions, deadPartitions), steps, s, step.id, k);
    CounterIsFailures(cfg, s, step, k);
  }

  // ---- the letters of a run ----

  /** A dead-letter copy and the place of the record it was made of. */
  datatype Letter = Letter(place: Place, copy: EventRecord)

  ghost function StepLetters(cfg: Config, s: System, step: Step): seq<Letter> {
    if step.Handle? && Enabled(s, step) then
      var c := s.members[step.id].work.pending[0];
      match HandleNext(cfg, s.members[step.id].work, step.outcome).fate
      case Quarantined(copy) => [Letter((c.partition, c.offset), copy)]
      case _ => []
    else []
  }

  ghost function Letters(cfg: Config, s: System, steps: seq<Step>): seq<Letter>
    decreases |steps|
  {
    if steps == [] || !Sizes(s) || !Enabled(s, steps[0]) then []
    else StepLetters(cfg, s, steps[0]) + Letters(cfg, Apply(cfg, s, steps[0]), steps[1..])
  }

  function Copies(letters: seq<Letter>): (r: seq<EventRecord>)
    ensures |r| == |letters|
  {
    seq(|letters|, i requires 0 <= i < |letters| => letters[i].copy)
  }

  ghost predicate HasLetter(letters: seq<Letter>, k: Place) {
    exists i :: 0 <= i < |letters| && letters[i].place == k
  }

  lemma HasLetterIn(a: seq<Letter>, b: seq<Letter>, k: Place)
    ensures HasLetter(a + b, k) <==> HasLetter(a, k) || HasLetter(b, k)
  {
    if HasLetter(a, k) {
      var i :| 0 <= i < |a| && a[i].place == k;
      assert (a + b)[i].place == k;
    }
    if HasLetter(b, k) {
      var i :| 0 <= i < |b| && b[i].place == k;
      assert (a + b)[|a| + i].place == k;
    }
  }

  lemma StepAppendsLetters(cfg: Config, s: System, step: Step)
    requires Sizes(s) && Enabled(s, step)
    ensures Apply(cfg, s, step).dead == AppendAll(s.dead, cfg.hash, Copies(StepLetters(cfg, s, step)))
  {
    hide Delivery, Rebalanced, BrokerModel.Commit, Append, Polled, HandleRecord;
    Consumer.AppendedNone(s.dead, cfg.hash);
    var letters := StepLetters(cfg, s, step);
    if letters != [] {
      assert Copies(letters) == [] + [letters[0].copy];
      Consumer.AppendedOne(s.dead, cfg.hash, [], letters[0].copy);
    }
  }

  /** The dead-letter topic holds the letters of the run, and nothing else was added to it. */
  lemma {:induction false} DeadTopicIsTheLetters(cfg: Config, s: System, steps: seq<Step>, t: System)
    requires Run(cfg, s, steps, t) && |s.dead| >= 1
    ensures t.dead == AppendAll(s.dead, cfg.hash, Copies(Letters(cfg, s, steps)))
    decreases |steps|
  {
    hide Apply, Enabled, StepLetters, AppendAll;
    Consumer.AppendedNone(s.dead, cfg.hash);
    if steps != [] {
      StepAppendsLetters(cfg, s, steps[0]);
      var next := Apply(cfg, s, steps[0]);
      DeadTopicIsTheLetters(cfg, next, steps[1..], t);
      var a, b := StepLetters(cfg, s, steps[0]), Letters(cfg, next, steps[1..]);
      assert Copies(a + b) == Copies(a) + Copies(b);
      Consumer.AppendedMore(s.dead, cfg.hash, Copies(a), Copies(b));
    }
  }

  // ---- a record over a run ----

  /** If the step calls the processor on the record at this place, it is not poison, and a failure is not one too many. */
  ghost predicate LenientStep(cfg: Config, s: System, step: Step, k: Place) {
    Calls(cfg, s, step, k) ==>
      !step.outcome.Poisoned? && (step.outcome.Failed? ==> FailuresKept(s, step.id, k) < Limit(cfg))
  }

  /** Over the run the processor never calls the record poison, and no instance fails on it more than `max_retries` times. */
  ghost predicate Lenient(cfg: Config, s: System, steps: seq<Step>, k: Place)
    decreases |steps|
  {
    steps == [] || !Sizes(s) || !Enabled(s, steps[0])
    || (LenientStep(cfg, s, steps[0], k) && Lenient(cfg, Apply(cfg, s, steps[0]), steps[1..], k))
  }

  /** The record is, or will be, the one at this place. */
  ghost predicate RecordAt(logs: TopicLogs, k: Place, record: EventRecord) {
    k.0 < |logs| && (k.1 < |logs[k.0]| ==> logs[k.0][k.1] == record)
  }

  lemma StepLetterExactlyWhen(cfg: Config, s: System, step: Step, k: Place, record: EventRecord)
    requires QuietInv(cfg, s) && Enabled(s, step) && RecordAt(s.logs, k, record)
    ensures Genuine(cfg, record).Some? ==> (HasLetter(StepLetters(cfg, s, step), k) <==> !LenientStep(cfg, s, step, k))
    ensures Genuine(cfg, record).None? && Handles(s, step, k) ==> HasLetter(StepLetters(cfg, s, step), k)
  {
    hide QuietInv;
    var letters := StepLetters(cfg, s, step);
    if Handles(s, step, k) {
      CounterIsFailures(cfg, s, step, k);
      var w := s.members[step.id].work;
      EveryOutcome(cfg, w.local, w.pending[0], step.outcome);
      if letters != [] { assert letters[0].place == k; }
    }
  }

  lemma StepKeepsRecord(cfg: Config, s: System, step: Step, k: Place, record: EventRecord)
    requires Sizes(s) && Enabled(s, step) && RecordAt(Apply(cfg, s, step).logs, k, record)
    ensures RecordAt(s.logs, k, record)
  {
    if step.Produce? { AppendGrows(s.logs, cfg.hash, step.record); }
  }

  lemma {:induction false} RunKeepsRecord(cfg: Config, s: System, steps: seq<Step>, t: System, k: Place, record: EventRecord)
    requires QuietRun(cfg, s, steps, t) && RecordAt(t.logs, k, record)
    ensures RecordAt(s.logs, k, record)
    decreases |steps|
  {
    hide Apply, Enabled, RecordAt, Quiet;
    if steps != [] {
      RunKeepsRecord(cfg, Apply(cfg, s, steps[0]), steps[1..], t, k, record);
      StepKeepsRecord(cfg, s, steps[0], k, record);
    }
  }

  lemma NoLetters(k: Place)
    ensures !HasLetter([], k)
  {
  }

  lemma {:induction false} LettersExactlyWhen(cfg: Config, s: System, steps: seq<Step>, t: System, k: Place, record: EventRecord)
    requires QuietInv(cfg, s) && QuietRun(cfg, s, steps, t)
    requires RecordAt(t.logs, k, record) && Genuine(cfg, record).Some?
    ensures HasLetter(Letters(cfg, s, steps), k) <==> !Lenient(cfg, s, steps, k)
    decreases |steps|
  {
    hide QuietInv, Apply, Enabled, Quiet, RecordAt, LenientStep, StepLetters, HasLetter;
    if steps == [] {
      NoLetters(k);
    } else {
      var next := Apply(cfg, s, steps[0]);
      QuietStepKeeps(cfg, s, steps[0]);
      RunKeepsRecord(cfg, s, steps, t, k, record);
      StepLetterExactlyWhen(cfg, s, steps[0], k, record);
      LettersExactlyWhen(cfg, next, steps[1..], t, k, record);
      HasLetterIn(StepLetters(cfg, s, steps[0]), Letters(cfg, next, steps[1..]), k);
    }
  }

  ghost predicate Settled(s: System, k: Place) {
    k.0 < |s.handled| && k.1 in s.handled[k.0]
  }

  lemma SeenIsInSink(cfg: Config, s: System, id: string)
    requires QuietInv(cfg, s) && id in s.members
    ensures s.members[id].Own().seen <= s.sink
  {
    hide Tidy, Tallied, Covered, SinkGenuine, Routed, HandledAccounted, Gapless, Bounds, BatchSafe;
    assert MemberSafe(cfg, s, s.members[id]);
  }

  /** When a place becomes handled, its record went to the sink or left a letter. */
  lemma StepSettles(cfg: Config, s: System, step: Step, k: Place, record: EventRecord)
    requires QuietInv(cfg, s) && Enabled(s, step) && RecordAt(s.logs, k, record)
    requires Settled(Apply(cfg, s, step), k) && !Settled(s, k)
    ensures HasLetter(StepLetters(cfg, s, step), k)
      || (Genuine(cfg, record).Some? && Genuine(cfg, record).value.signature in Apply(cfg, s, step).sink)
  {
    hide QuietInv, HandleRecord, Delivery, Rebalanced;
    assert step.Handle?;
    var w := s.members[step.id].work;
    var c := w.pending[0];
    assert Handles(s, step, k);
    CounterIsFailures(cfg, s, step, k);
    var a := HandleNext(cfg, w, step.outcome);
    DoneMeans(cfg, w, step.outcome);
    SeenIsInSink(cfg, s, step.id);
    if a.fate.Quarantined? { assert StepLetters(cfg, s, step)[0].place == k; }
  }

  lemma SinkGrows(cfg: Config, s: System, step: Step)
    requires Sizes(s) && Enabled(s, step)
    ensures s.sink <= Apply(cfg, s, step).sink
  {
    hide Delivery, Rebalanced, HandleNext;
  }

  lemma {:induction false} SettledMeans(cfg: Config, s: System, steps: seq<Step>, t: System, k: Place, record: EventRecord)
    requires QuietInv(cfg, s) && QuietRun(cfg, s, steps, t) && RecordAt(t.logs, k, record)
    ensures s.sink <= t.sink
    ensures Settled(t, k) && !Settled(s, k) ==>
      HasLetter(Letters(cfg, s, steps), k) || (Genuine(cfg, record).Some? && Genuine(cfg, record).value.signature in t.sink)
    decreases |steps|
  {
    hide QuietInv, Apply, Enabled, Quiet, RecordAt, StepLetters, HasLetter, Settled;
    if steps != [] {
      var next := Apply(cfg, s, steps[0]);
      QuietStepKeeps(cfg, s, steps[0]);
      RunKeepsRecord(cfg, s, steps, t, k, record);
      SinkGrows(cfg, s, steps[0]);
      SettledMeans(cfg, next, steps[1..], t, k, record);
      HasLetterIn(StepLetters(cfg, s, steps[0]), Letters(cfg, next, steps[1..]), k);
      if Settled(next, k) && !Settled(s, k) { StepSettles(cfg, s, steps[0], k, record); }
    }
  }

  lemma CommittedIsHandled(cfg: Config, s: System, p: nat, o: nat)
    requires QuietInv(cfg, s) && p < |s.logs|
    ensures Sizes(s) && (o < s.group.committed[p] ==> o in s.handled[p])
  {
    hide Tidy, Tallied, Covered, SinkGenuine, Routed, HandledAccounted, MemberSafe;
    assert s.handled[p] == Below(Height(s.handled[p]));
  }

  /**
   A genuine record over a quiet run from an empty bus. It has a letter in the dead-letter topic if and
   only if the processor called it poison or some instance failed on it more than `max_retries` times;
   otherwise, once it has been handled, as every committed record has, its signature is in the sink.
   */
  lemma DeadLetteredExactlyWhen(cfg: Config, partitions: nat, deadPartitions: nat, steps: seq<Step>, t: System, p: nat, o: nat)
    requires partitions >= 1 && deadPartitions >= 1
    requires QuietRun(cfg, Start(partitions, deadPartitions), steps, t)
    requires p < |t.logs| && o < |t.logs[p]| && Genuine(cfg, t.logs[p][o]).Some?
    ensures var start := Start(partitions, deadPartitions);
      var letters := Letters(cfg, start, steps);
      && t.dead == AppendAll(start.dead, cfg.hash, Copies(letters))
      && (HasLetter(letters, (p, o)) <==> !Lenient(cfg, start, steps, (p, o)))
      && Sizes(t) && (o < t.group.committed[p] ==> o in t.handled[p])
      && (o in t.handled[p] && Lenient(cfg, start, steps, (p, o)) ==> Genuine(cfg, t.logs[p][o]).value.signature in t.sink)
  {
    hide QuietRun, QuietInv, GuardedRun, Run, Letters, Lenient, HasLetter, AppendAll, Genuine, Height;
    var start := Start(partitions, deadPartitions);
    StartIsQuiet(cfg, partitions, deadPartitions);
    QuietRunKeeps(cfg, start, steps, t);
    GuardedIsRun(cfg, start, steps, t);
    DeadTopicIsTheLetters(cfg, start, steps, t);
    var record := t.logs[p][o];
    LettersExactlyWhen(cfg, start, steps, t, (p, o), record);
    SettledMeans(cfg, start, steps, t, (p, o), record);
    CommittedIsHandled(cfg, t, p, o);
    assert !Settled(start, (p, o));
  }

  /** A record that does not verify or decode has a letter as soon as it is handled. */
  lemma ForgedIsDeadLettered(cfg: Config, partitions: nat, deadPartitions: nat, steps: seq<Step>, t: System, p: nat, o: nat)
    requires partitions >= 1 && deadPartitions >= 1
    requires QuietRun(cfg, Start(partitions, deadPartitions), steps, t)
    requires p < |t.logs| && o < |t.logs[p]| && Genuine(cfg, t.logs[p][o]).None?
    ensures p < |t.handled| && (o in t.handled[p] ==> HasLetter(Letters(cfg, Start(partitions, deadPartitions), steps), (p, o)))
  {
    hide QuietRun, QuietInv, GuardedRun, Letters, HasLetter, Genuine, Height;
    var start := Start(partitions, deadPartitions);
    StartIsQuiet(cfg, partitions, deadPartitions);
    QuietRunKeeps(cfg, start, steps, t);
    SettledMeans(cfg, start, steps, t, (p, o), t.logs[p][o]);
    CommittedIsHandled(cfg, t, p, o);
    assert !Settled(start, (p, o));
  }
}
