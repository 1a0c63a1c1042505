# A verified model of the Phylanx event bus, rate limiter, source scanners and keyed stores

This project models, in Dafny, the stateful logic of the Phylanx repository and proves what that
logic is for.

- **The event bus** (`phylanx-indexer/eventbus`). The in-memory broker and the detection consumer are
  classes (`Broker.InMemoryBroker`, `Consumer.DetectionConsumer`) whose methods are proved equal to
  functions on values (`BrokerModel`, `PollModel`, `ConsumerModel`). Over those functions, `Protocol` is
  a state machine in which producers and any number of consumer instances interleave single broker calls
  and record handlings, and may crash between any two of them. `CycleLaws` and `DrainLaws` are about one
  consumer's cycles, `DrainReports` about their reports, `RetryLaws` about what becomes of a single
  record over a run, `ReleasingRuns`, `QuietRuns`, `GentleRuns` and `UnsafeMoves` about rebalancing,
  `Refinement` shows that what the class does is a run of the state machine, and `LagMonitor` says what
  the lag numbers mean.
- **The sliding-window rate limiter** (`RateLimit`): a class that prunes, proved to decide as one that
  scans the bucket's whole history.
- **Two hand-written scanners of the audit tools** (`StringConstant`, `CallScanner`): loops proved
  against functions, and those against a grammar and against balanced parentheses.
- **Keyed stores** (`ScoreRepo`, `SafeScore`, `EvidenceRepo`): the score repository and the guarded
  read above it, and the content-addressed evidence store.

`Prelude`, `EventTypes`, `Ordering` and `Text` hold what the others share. `dafny verify dfyconfig.toml`
checks everything.

## How the state machine stands for the code

Every broker method takes one lock, so each is one step. A step `Handle` is the handling of one
record including the dead-letter copy it may produce; `Crash` is a `leave_group` at any point,
after which the instance is gone. The processor is arbitrary: each `Handle` step carries how its
call ended, and in the class it is any function of the call's number, the agent and the
transaction. `sink` is the store all instances insert signatures into if absent. `handled`, `returned`
and `failures` are histories that the code does not keep.

Conditions set by the code and stated as hypotheses: the dead-letter topic is not the main topic;
`max_records` is at least one where something is claimed about emptying a backlog; nobody produces
during a drain; and, where a result needs it, joins, leaves and crashes meet a guard. The weakest guard
(`GuardedRun`) lets a partition pass between two surviving members only when it has not been read
beyond what is handled. The next (`ReleasingRun`) can be checked on what the code keeps: no surviving
member gives up a partition that it still has in its batch or is about to rewind. It implies the first
(`ReleasingRuns.ReleasingLosesNothing`). A third (`QuietRun`) lets members come and go only while every
other member is between cycles, and implies the second (`ReleasingRuns.QuietRunReleases`). The strongest
(`GentleRun`) also has no member crash inside a batch; in such runs what has been handled can be read
off the state that the code keeps (`GentleRuns.HandledIsCommittedExactlyWhen`,
`GentleRuns.ReadAheadIsHeld`).

## Where the code does not do what its documentation says

- *Positions on reassignment.* `_GroupState` (broker.py:122-123) says a read position is reset when a
  consumer is reassigned; `_rebalance` resets nothing and `leave_group` resets only the leaver's
  partitions. `UnsafeMoves.JoinKeepsPosition` and `LeaveKeepsPosition` are inputs that show it;
  `BrokerModel.JoinRewindsExactly` and `LeaveRewindsExactly` give the exact condition.
- *"Killing a consumer mid-stream loses nothing"* (consumer.py:6). False for a member that joins while
  another is inside a batch: `UnsafeMoves.RecordIsLost` is a nine-step run that commits past a record
  nobody has. Nothing is lost, whoever is killed and whenever, as long as at no join, leave or crash a
  surviving member gives up a partition it still holds records of (`ReleasingRuns.ReleasingLosesNothing`,
  `UnsafeMoves.ReleasedMoveIsSafe`). From the state of a gentle run that condition is also
  necessary (`UnsafeMoves.MoveIsSafeExactlyWhenReleased`). After a quiet run in which a member was killed
  inside a batch it need not be (`UnsafeMoves.HeldMoveCanBeSafe`), and the exact condition is the one on
  what has been handled (`UnsafeMoves.MoveIsSafeExactlyWhen`).
- *"Consume repeatedly until a poll returns nothing"* (consumer.py:256). The loop stops after 10,000
  cycles, so a backlog of more than 10,000 times `max_records` is never drained, whatever the processor
  does (`DrainLaws.DrainStopsShort`; `LongBacklogIsLeft` is such an input). With a processor that never
  fails that is the exact limit (`DrainLaws.DrainsExactlyWhen`); each call that fails costs at most one
  round more (`DrainLaws.DrainOutlastsFailures`); and with a processor of which nothing is known,
  `DrainLaws.DrainCompletes` gives a measure, failures included, below which the drain does not stop early.
- *"Every call"* (input_provenance_check.py:254). A call nested in the arguments of one that is yielded is
  passed over: `CallScanner.NestedCallIsPassedOver`, with the exact condition
  on the text in `CallScanner.YieldsEveryCallExactlyWhen`.
- *The retry hint* (rate_limit.py:126). With differing limits on one bucket the hint can be too short:
  `RateLimit.HintCanBeShort`, with the exact condition in `RateLimit.HintIsSharpExactlyWhen`.
- *Content addressing* (evidence_repo.py:173-176). Two agents with the same payload share one record, and
  the second is answered with the first one's: `EvidenceRepo.SharedPayloadIsMisattributed`, with the exact
  condition in `EvidenceRepo.LookupsAreOwnExactlyWhen`.

## Model

| member | source | states |
|---|---|---|
| EventTypes.EventRecord.DeadLetteredFrom | phylanx-indexer/eventbus/types.py:119-128 | the copy keeps key, payload, time stamp and every other header, and carries its origin and any non-empty reason |
| BrokerModel.RebalanceIsFair | phylanx-indexer/eventbus/broker.py:217-229 | every partition has exactly one owner and no member has more than one partition above another's share |
| BrokerModel.AssignmentForgetsHistory | phylanx-indexer/eventbus/broker.py:186-229 | after any history of joins and leaves the assignment depends only on the current members |
| BrokerModel.ShareSizes | phylanx-indexer/eventbus/broker.py:227-229 | round robin gives each of k members n/k partitions, the first n mod k of them one more |
| BrokerModel.JoinRewindsExactly | phylanx-indexer/eventbus/broker.py:122-126 | after a join every newly owned partition stands at its committed offset if and only if those that pass between survivors already did |
| BrokerModel.LeaveRewindsExactly | phylanx-indexer/eventbus/broker.py:200-215 | the same for a leave or crash, whose own partitions are rolled back |
| PollModel.DeliverySlice | phylanx-indexer/eventbus/broker.py:252-265 | each owned partition's share of a delivery is an initial stretch of its unread records, and no other partition has a share |
| PollModel.EmptyDelivery | phylanx-indexer/eventbus/broker.py:252-265 | an empty delivery, when at least one record was asked for, means nothing owned is unread |
| Broker.InMemoryBroker.CreateTopic | phylanx-indexer/eventbus/broker.py:148-155 | an existing topic is left alone, a count below one is an error, otherwise that many empty partitions |
| Broker.InMemoryBroker.EnsureTopic | phylanx-indexer/eventbus/broker.py:157-160 | a missing topic is created with the default count, if that is allowed |
| Broker.InMemoryBroker.Produce | phylanx-indexer/eventbus/broker.py:168-182 | one record is appended to the partition its key hashes to, whose old length is answered; nothing else changes |
| BrokerModel.PartitionIsTheRemainder | phylanx-indexer/eventbus/broker.py:178-182 | the partition of a key is the remainder of its hash by the number of partitions |
| Broker.InMemoryBroker.Deal | phylanx-indexer/eventbus/broker.py:219-229 | the clear-then-deal loops compute the round-robin assignment over the sorted members |
| Broker.InMemoryBroker.Rebalance | phylanx-indexer/eventbus/broker.py:217-229 | only the assignment of that one group changes, to the dealt one; none for no members |
| Broker.InMemoryBroker.JoinGroup | phylanx-indexer/eventbus/broker.py:186-198 | the group gains the member and a new deal, offsets stay; answers the member's share |
| Broker.InMemoryBroker.LeaveGroup | phylanx-indexer/eventbus/broker.py:200-215 | the leaver's partitions roll back to committed and all are dealt again; a stranger's leave changes nothing |
| Broker.InMemoryBroker.RollBack | phylanx-indexer/eventbus/broker.py:213-214 | the listed partitions' positions become the committed offsets, no other moves |
| Broker.InMemoryBroker.ReadOn | phylanx-indexer/eventbus/broker.py:256-261 | the inner loop appends one partition's records from its position on until max are out or none are left |
| Broker.InMemoryBroker.PollLoop | phylanx-indexer/eventbus/broker.py:252-264 | the nested loops yield the first max records of the concatenated unread logs, and advance each position by what was delivered |
| Broker.InMemoryBroker.Poll | phylanx-indexer/eventbus/broker.py:233-265 | refines the simple form: the first max unread records in ascending partition order; committed offsets untouched; an error for a member that owns nothing |
| Broker.InMemoryBroker.RaiseTo | phylanx-indexer/eventbus/broker.py:278-281 | the loop leaves each offset at the larger of the old and the given one |
| Broker.InMemoryBroker.Commit | phylanx-indexer/eventbus/broker.py:269-281 | each offset becomes the larger of the old and the given one; positions and assignment stay |
| Broker.InMemoryBroker.SeekToCommitted | phylanx-indexer/eventbus/broker.py:283-296 | only the listed partitions' positions change, to the committed offsets |
| Consumer.DetectionConsumer.constructor | phylanx-indexer/eventbus/consumer.py:120-160 | starts with nothing seen or counted, not joined; the two topics exist with 8 and 4 partitions unless they did before |
| Consumer.DetectionConsumer.Join | phylanx-indexer/eventbus/consumer.py:164-174 | joins the group and answers the share dealt; nothing outside this group and topics changes |
| Consumer.DetectionConsumer.Leave | phylanx-indexer/eventbus/consumer.py:176-185 | leaves the group if joined, and otherwise does nothing |
| Consumer.DetectionConsumer.Handle | phylanx-indexer/eventbus/consumer.py:286-336 | verification before decoding before dedup before the processor; exact new state, dead-letter copy, answer and number of processor calls |
| Consumer.DetectionConsumer.Process | phylanx-indexer/eventbus/consumer.py:339-370 | how a call's end becomes done, dead-lettered or retry, and the counters and seen set after it |
| ConsumerModel.EveryOutcome | phylanx-indexer/eventbus/consumer.py:286-370 | a dead-letter copy is made exactly when there is a complaint, and carries it in its header; duplicates change nothing; the processor is called exactly for verified, decodable, unseen records; a signature is seen from then on exactly when the call returned; only a failure with retries left is not done, its counter one higher |
| Consumer.DetectionConsumer.DeadLetter | phylanx-indexer/eventbus/consumer.py:372-376 | the tagged copy is appended to the dead-letter topic and nothing else changes |
| Consumer.DetectionConsumer.HandleInBatch | phylanx-indexer/eventbus/consumer.py:222-238 | one pass of the loop is one step of the cycle: skip behind a retry, else handle and move frontier or rewind set |
| Consumer.DetectionConsumer.HandleBatch | phylanx-indexer/eventbus/consumer.py:214-238 | the loop over a batch ends in the state and counters of the whole cycle, with its dead-letter copies produced in order |
| Consumer.DetectionConsumer.CommitAndRewind | phylanx-indexer/eventbus/consumer.py:240-245 | commit first, rewind second, each only when there is something to do |
| Consumer.DetectionConsumer.WorkOff | phylanx-indexer/eventbus/consumer.py:214-253 | what follows a non-empty poll: the whole cycle's state, commit, rewind and report |
| Consumer.DetectionConsumer.Consume | phylanx-indexer/eventbus/consumer.py:189-253 | one cycle equals the cycle function on the session, report included, and touches no other topic or group |
| Consumer.DetectionConsumer.ConsumeUntilEmpty | phylanx-indexer/eventbus/consumer.py:255-282 | the bounded loop equals the drain function with 10,000 rounds |
| CycleLaws.PollAligns | phylanx-indexer/eventbus/broker.py:252-265 | a poll from settled partitions gives a batch that runs, for each partition, from committed offset to read position |
| CycleLaws.HandleKeepsAligned | phylanx-indexer/eventbus/consumer.py:222-238 | handling a record, however the processor ends, keeps the rest of the batch contiguous from the frontier |
| CycleLaws.HandleMovesCursor | phylanx-indexer/eventbus/consumer.py:229-238 | a done record moves its partition's frontier by exactly one and a skipped or retried one moves none |
| CycleLaws.FinishBalances | phylanx-indexer/eventbus/consumer.py:214-238 | over a whole batch the frontiers advance by processed plus dead-lettered, one retry per rewound partition, one copy per dead letter |
| CycleLaws.SettleSettles | phylanx-indexer/eventbus/consumer.py:240-245 | after commit and rewind the owned partitions are read exactly as far as committed, and no other partition moved |
| CycleLaws.CycleConserves | phylanx-indexer/eventbus/consumer.py:207-253 | committed offsets advance by processed plus dead_lettered; polled is those plus what is left uncommitted, which lies on exactly `retried` partitions of the batch |
| DrainLaws.HandleLowersWeight | phylanx-indexer/eventbus/consumer.py:338-370 | every handling that is not a skip strictly lowers the sum, over owned uncommitted records, of limit + 1 - failures so far |
| DrainLaws.CycleProgress | phylanx-indexer/eventbus/consumer.py:263-278 | a non-empty poll lowers that measure and never "did nothing"; an empty one means every owned partition is committed to its end |
| DrainLaws.ConsumeStaysReady | phylanx-indexer/eventbus/consumer.py:189-253 | after a cycle the session is ready for the next, with the same logs and partitions |
| DrainLaws.DeliveryLength | phylanx-indexer/eventbus/broker.py:252-264 | a poll delivers as many records as were asked for, or all that are uncommitted if those are fewer |
| DrainLaws.CycleLowersBacklog | phylanx-indexer/eventbus/consumer.py:189-253 | a cycle lowers the number of uncommitted owned records by what it handles for good, at most max_records |
| DrainLaws.DrainsExactlyWhen | phylanx-indexer/eventbus/consumer.py:255-282 | with a processor that never fails, a drain empties the backlog if and only if it is at most the rounds allowed times max_records |
| DrainLaws.DrainOutlastsFailures | phylanx-indexer/eventbus/consumer.py:255-282 | if the processor fails only in given calls, and the rounds beyond one for each of those can take the backlog, the drain empties it |
| DrainLaws.RetriesUseFailures | phylanx-indexer/eventbus/consumer.py:338-365 | a batch with a retry contains one of the calls in which the processor fails |
| DrainLaws.DrainStopsShort | phylanx-indexer/eventbus/consumer.py:255-265 | with any processor, a larger backlog is not emptied |
| DrainLaws.LongBacklogIsLeft | phylanx-indexer/eventbus/consumer.py:262-266 | 10,001 records, polled one at a time, are not drained in 10,000 rounds |
| DrainLaws.DrainCompletes | phylanx-indexer/eventbus/consumer.py:255-282 | with any processor, a drain succeeds and conserves offsets, and if the measure is below the rounds allowed it ends with every owned partition committed to its end |
| DrainReports.CycleReports | phylanx-indexer/eventbus/consumer.py:247-253 | `dead_lettered` is what the dead-letter topic gained, `processed` the rest of the committed advance, and `committed_through` names exactly the partitions that advanced, with their new offsets |
| DrainReports.DrainReportIsExact | phylanx-indexer/eventbus/consumer.py:255-282 | the same for the totals of a drain over all its cycles |
| Protocol.HandleKeeps | phylanx-indexer/eventbus/consumer.py:222-238 | handling a record keeps the safety invariant: handled offsets have no gap and are accounted for, nothing is committed beyond them, and reads beyond them are covered by their owner |
| Protocol.PollKeeps | phylanx-indexer/eventbus/broker.py:233-265 | so does a poll, which never starts beyond the handled offsets |
| Protocol.CommitKeeps | phylanx-indexer/eventbus/broker.py:269-281 | so does the commit of a finished batch's frontier, which never passes what is handled |
| Protocol.SeekKeeps | phylanx-indexer/eventbus/broker.py:283-296 | so does the rewind of partitions with a record to retry |
| Protocol.JoinKeeps | phylanx-indexer/eventbus/broker.py:186-198 | so does a join that meets the guard |
| Protocol.LeaveKeeps | phylanx-indexer/eventbus/broker.py:200-215 | so does a graceful leave that meets the guard |
| Protocol.CrashKeeps | phylanx-indexer/eventbus/broker.py:200-215 | so does a crash at any point of a batch, if the guard holds |
| Protocol.RunKeeps | phylanx-indexer/eventbus/consumer.py:8-21 | the invariant holds throughout every guarded run |
| Protocol.AtLeastOnce | phylanx-indexer/eventbus/consumer.py:3-21 | in every guarded run, whatever is produced, retried, redelivered or crashed, each record below a committed offset has its signature in the sink or a copy in the dead-letter topic |
| Protocol.SinkHoldsOnlyGenuine | phylanx-indexer/eventbus/consumer.py:31-40 | in any run, guarded or not, the sink only ever holds signatures of produced records that verify and decode |
| Protocol.EarlierHandledFirst | phylanx-indexer/eventbus/consumer.py:222-227 | of two records with one key the later is never handed over before the earlier is handled, across retries, crashes and changes of owner; handled offsets form a prefix |
| QuietRuns.QuietStepKeeps | phylanx-indexer/eventbus/consumer.py:189-245 | every step that is quiet keeps batches contiguous, retry counters in step and offsets settled between cycles |
| QuietRuns.QuietRunKeeps | phylanx-indexer/eventbus/broker.py:200-215 | quiet runs keep that invariant and are guarded runs |
| QuietRuns.BetweenCycles | phylanx-indexer/eventbus/consumer.py:240-245 | whenever all members are between cycles, every partition's position equals its committed offset and is at most its length |
| QuietRuns.RetriesAreBounded | phylanx-indexer/eventbus/consumer.py:151-156 | counters lie in 1..max_retries, one offset fails at most max_retries + 1 times on one instance, and a counter not below the committed offset sits at it |
| RetryLaws.FailuresAreCounted | phylanx-indexer/eventbus/consumer.py:347-348 | the failure history of an instance at a place is the number of its calls that failed there since it came to life |
| RetryLaws.RetriedExactlyWhen | phylanx-indexer/eventbus/consumer.py:347-365 | in a quiet run a failing call leads to a retry if and only if the instance has failed fewer than max_retries times on that record before, and otherwise to the dead-letter topic |
| RetryLaws.DeadTopicIsTheLetters | phylanx-indexer/eventbus/consumer.py:372-376 | over any run the dead-letter topic gains exactly the copies of the records dead-lettered in it, in order |
| RetryLaws.DeadLetteredExactlyWhen | phylanx-indexer/eventbus/consumer.py:23-29 | in a quiet run a verified, decodable record has a copy in the dead-letter topic if and only if its processor called it poison or some instance failed on it more than max_retries times; otherwise, once it is handled, its signature is in the sink |
| RetryLaws.ForgedIsDeadLettered | phylanx-indexer/eventbus/consumer.py:31-40 | in a quiet run a record that does not verify or decode has a copy in the dead-letter topic as soon as it is handled |
| QuietRuns.HandleStaysTallied | phylanx-indexer/eventbus/consumer.py:338-370 | one handling keeps every counter within its bound and none beyond its partition's frontier |
| QuietRuns.ReturnsOncePerSignature | phylanx-indexer/eventbus/consumer.py:332-370 | in any run, guarded or not, an instance's processor returns normally at most once per signature |
| ReleasingRuns.UnheldIsHandled | phylanx-indexer/eventbus/broker.py:217-229 | in every state that meets the safety invariant, a partition whose owner holds none of its records is not read beyond what is handled |
| ReleasingRuns.ReleasingIsAllowed | phylanx-indexer/eventbus/broker.py:186-229 | a join, leave or crash in which no surviving member gives up a partition it holds records of meets the guard of the safety theorem |
| ReleasingRuns.ReleasingLosesNothing | phylanx-indexer/eventbus/consumer.py:3-21 | in every run from an empty bus whose joins, leaves and crashes all do, kills inside batches included, no record below a committed offset is lost |
| ReleasingRuns.QuietRunReleases | phylanx-indexer/eventbus/broker.py:200-215 | every quiet run is such a run |
| GentleRuns.GentleStepKeeps | phylanx-indexer/eventbus/consumer.py:214-245 | unless a member crashes inside a batch, every quiet step keeps what is handled equal to the owner's frontier, or to the committed offset outside a batch |
| GentleRuns.HandledIsCommittedExactlyWhen | phylanx-indexer/eventbus/consumer.py:240-241 | in gentle runs what is handled is what is committed if and only if no member has handled a record of the batch it is working on |
| GentleRuns.ReadAheadIsHeld | phylanx-indexer/eventbus/consumer.py:214-245 | a partition is read beyond what is handled if and only if its owner still has records of it in its batch or is about to rewind it |
| UnsafeMoves.HazardLoses | phylanx-indexer/eventbus/broker.py:217-229 | whenever a partition was read beyond what is handled and its owner knows nothing of it, some continuation commits past an unhandled record |
| UnsafeMoves.MoveIsSafeExactlyWhen | phylanx-indexer/eventbus/broker.py:186-229 | from the state of a quiet run, no continuation whose further joins, leaves and crashes meet the guard ever commits past an unhandled record if and only if no partition that passes between survivors was read beyond what is handled |
| UnsafeMoves.MoveIsSafeExactlyWhenReleased | phylanx-indexer/eventbus/broker.py:186-229 | from the state of a gentle run the same holds if and only if no surviving member gives up a partition that it still has in its batch or is about to rewind |
| UnsafeMoves.ReleasedMoveIsSafe | phylanx-indexer/eventbus/broker.py:186-229 | after any guarded run, a join, leave or crash that gives up nothing held is followed by no loss in any guarded continuation |
| UnsafeMoves.HeldMoveCanBeSafe | phylanx-indexer/eventbus/broker.py:200-215 | after a kill inside a batch a member can give up a partition with a record in its batch safely, the record having been handled before |
| UnsafeMoves.JoinKeepsPosition | phylanx-indexer/eventbus/broker.py:122-124 | a join hands partition 1 to the newcomer at position 1 with 0 committed |
| UnsafeMoves.LeaveKeepsPosition | phylanx-indexer/eventbus/broker.py:200-215 | a leave rolls back the leaver's partition and hands another member's on at position 1 with 0 committed |
| UnsafeMoves.RecordIsLost | phylanx-indexer/eventbus/consumer.py:6-21 | a concrete run of nine steps after which a committed record is in neither sink nor dead-letter topic |
| Refinement.ConsumeIsARun | phylanx-indexer/eventbus/consumer.py:189-253 | whatever one cycle of the class does is a run of the state machine, of this consumer's own steps alone, to the same state; the report counts the records handled in it, and those processed, dead-lettered and put back for a retry |
| Refinement.DrainIsARun | phylanx-indexer/eventbus/consumer.py:255-282 | so is a whole drain, again of its own steps alone, and without a join once its consumer has joined; the four totals of its report are what the records handled in that run became |
| Refinement.QuietMemberIsReady | phylanx-indexer/eventbus/consumer.py:189-207 | on every quiet run a consumer between cycles, which has joined or finds all others between cycles, meets what the cycle and drain laws ask for |
| Refinement.DrainLosesNothing | phylanx-indexer/eventbus/consumer.py:3-21 | after any quiet run from an empty bus, a consumer between cycles, which has joined or finds all others between cycles, drains a backlog within bounds by its own steps from there, sink included; then every record ever produced to its partitions is in the sink or copied to the dead-letter topic |
| LagMonitor.LagSnapshot.OffendingPartitions | phylanx-indexer/eventbus/lag_monitor.py:175-181 | exactly the partitions over the threshold, each once, in ascending order |
| LagMonitor.ConsumerLagMonitor.LagByPartition | phylanx-indexer/eventbus/lag_monitor.py:258-273 | for every partition its length less the committed offset, never negative |
| LagMonitor.ConsumerLagMonitor.Snapshot | phylanx-indexer/eventbus/lag_monitor.py:289-312 | per-partition lags, their sum and largest, and the verdict against this monitor's thresholds |
| LagMonitor.ReasonIsComplete | phylanx-indexer/eventbus/lag_monitor.py:183-202 | a snapshot is within threshold if and only if its reason is empty, and the fallback reason is never given |
| LagMonitor.ReasonSaysWhatIsOver | phylanx-indexer/eventbus/lag_monitor.py:183-202 | the reason is the total and its cap if that is over, then the partitions over theirs and that cap if there are any, and nothing else |
| LagMonitor.ProduceAddsLag | phylanx-indexer/eventbus/lag_monitor.py:258-277 | one more record is one more behind |
| LagMonitor.CycleLowersLag | phylanx-indexer/eventbus/lag_monitor.py:258-277 | a cycle lowers the total by exactly processed plus dead_lettered |
| LagMonitor.LagCountsUncommitted | phylanx-indexer/eventbus/lag_monitor.py:21-24 | unless something is committed beyond its end, the total is exactly the number of uncommitted records and the clamp never fires |
| LagMonitor.LagIsExact | phylanx-indexer/eventbus/lag_monitor.py:258-277 | in every guarded run that is so, and the total is at least the number of unhandled records |
| LagMonitor.LagIsUnhandledExactlyWhen | phylanx-indexer/eventbus/lag_monitor.py:258-277 | in every gentle run the total equals the unhandled records if and only if no member has handled a record of the batch it is working on; so always between cycles |
| LagMonitor.LagCanExceedUnhandled | phylanx-indexer/eventbus/lag_monitor.py:258-277 | a run with one record handled and not committed, with and without a crash after it: lag one, nothing unhandled |
| RateLimit.SlidingWindowLimiter.Check | phylanx-api/api/rate_limit.py:113-136 | the pruned queue decides as a scan of the bucket's whole accepted history does; a rejection records nothing; other buckets are untouched |
| RateLimit.SlidingWindowLimiter.Charge | phylanx-api/api/rate_limit.py:125-136 | on a pruned queue the decision and the new queue are those of the whole history |
| RateLimit.SlidingWindowLimiter.Prune | phylanx-api/api/rate_limit.py:123-124 | popping from the front leaves exactly the live hits of the whole history |
| RateLimit.SuffixIsLive | phylanx-api/api/rate_limit.py:123-124 | dropping an ascending history's stale front is the same as filtering it |
| RateLimit.BucketsAreIndependent | phylanx-api/api/rate_limit.py:119-122 | a bucket's hits depend only on the calls made on it |
| RateLimit.WindowNeverOverfull | phylanx-api/api/rate_limit.py:95-103 | over any run, no half-open window of the given length holds more accepted hits of a bucket than its limit |
| RateLimit.HintIsSharpExactlyWhen | phylanx-api/api/rate_limit.py:125-131 | every earlier call is rejected too; every call from the hinted moment on is accepted if and only if fewer than limit hits are newer than the oldest live one |
| RateLimit.FixedLimitHintIsSharp | phylanx-api/api/rate_limit.py:123-136 | with one limit per bucket the hint is the exact moment, and the rounded-up header is long enough |
| RateLimit.RemainingIsExact | phylanx-api/api/rate_limit.py:79-83 | zero on a rejection; after an accepted call, just so many more calls at the same moment are accepted |
| RateLimit.RetryAfterHeader | phylanx-api/api/app.py:419-420 | the least number of whole seconds, and at least one, that is more than the hint |
| RateLimit.HintCanBeShort | phylanx-api/api/rate_limit.py:126-127 | two calls with limit two, then one with limit one: rejected again at the hinted moment |
| StringConstant.Extract | audit/aml_compliance_check.py:358-441 | the loop with its three flags computes the state machine on the text after the first marker |
| StringConstant.ScanTokens | audit/aml_compliance_check.py:388-439 | any well-formed sequence of comments, literals and other characters, ended by a semicolon, scans to its literals' concatenation, or to none without a literal |
| StringConstant.ParseTokens | audit/aml_compliance_check.py:388-439 | whatever scans successfully is such a sequence |
| StringConstant.ExtractsExactly | audit/aml_compliance_check.py:358-441 | a string is answered if and only if the marker is followed by such a sequence with a literal, and it is the literals' concatenation |
| StringConstant.EscapeKeepsValue | audit/aml_compliance_check.py:405-410 | reading an escaped literal gives back the string it was made from |
| StringConstant.UnescapeReadsTheTable | audit/aml_compliance_check.py:407-408 | the five listed escapes, and any other character for itself |
| StringConstant.JoinIsConcatenation | audit/aml_compliance_check.py:423 | the segments are concatenated in order |
| StringConstant.PrintThenExtract | audit/aml_compliance_check.py:358-441 | round trip: any non-empty list of strings, printed as escaped literals joined by `+` with whitespace and comments anywhere between tokens, is read back as its concatenation |
| CallScanner.SkipStringOrComment | audit/input_provenance_check.py:217-250 | where the string or comment opening at a position ends, by file suffix; none if nothing opens there |
| CallScanner.SkipEndsWhereItShould | audit/input_provenance_check.py:217-250 | a line comment ends before the next newline, a block comment after its closing mark, a triple-quoted string after the next three quotes, any other string after its first unescaped quote, each, failing that, at the end of the text; nothing else is skipped |
| CallScanner.QuoteEndsAtQuote | audit/input_provenance_check.py:242-249 | a quoted string ends just past the first of its quotes that an even number of backslashes precede |
| CallScanner.FindOpenParen | audit/input_provenance_check.py:313-319 | the opening parenthesis after whitespace only, or none |
| CallScanner.LineStarts | audit/input_provenance_check.py:258-262 | the offsets at which lines start |
| CallScanner.LineOf | audit/input_provenance_check.py:264-273 | the binary search answers one plus the newlines before the position |
| CallScanner.FindClose | audit/input_provenance_check.py:291-304 | the depth-counting loop computes the first point of depth zero, or none |
| CallScanner.CloseIsFirstZero | audit/input_provenance_check.py:293-304 | that point is the matching close: parentheses outside strings and comments balance there and nowhere earlier |
| CallScanner.OnePath | audit/input_provenance_check.py:275-280 | which positions are inside strings and comments does not depend on where reading resumed |
| CallScanner.FindCalls | audit/input_provenance_check.py:253-310 | yields, for each call of the scan in order, its line number and the text between its parentheses |
| CallScanner.YieldedForACall | audit/input_provenance_check.py:306-307 | a call's line is one plus the number of newlines before it, and its region the text strictly between its parentheses |
| CallScanner.CallAtIsACall | audit/input_provenance_check.py:282-290 | what the scan takes for a call is the name, not as the end of a longer identifier, then white space only, then the parenthesis; and every such place is taken for one |
| CallScanner.ScanIsSound | audit/input_provenance_check.py:275-310 | every call yielded is one by that definition, stands in code, and its region ends at the matching close; regions are disjoint and in order |
| CallScanner.ScanIsComplete | audit/input_provenance_check.py:275-310 | every balanced call in code is yielded unless it starts within one that is |
| CallScanner.FindsTheOutermostCalls | audit/input_provenance_check.py:253-310 | both together, for the whole text |
| CallScanner.YieldsEveryCallExactlyWhen | audit/input_provenance_check.py:254 | every balanced call is yielded if and only if the text has no balanced call within another |
| CallScanner.NestedCallIsPassedOver | audit/input_provenance_check.py:306-309 | in `f(f())` the inner call is not yielded |
| ScoreRepo.InMemoryScoreRepo.Add | phylanx-api/api/score_repo.py:107-114 | filter, append and sort keep every bucket strictly ascending and equal to the last-write-wins table, which gains this one entry |
| ScoreRepo.AddedMatches | phylanx-api/api/score_repo.py:112-114 | the rewritten bucket holds exactly the agent's last-written records, one per epoch, ascending |
| ScoreRepo.InMemoryScoreRepo.LatestScore | phylanx-api/api/score_repo.py:120-122 | the agent's record with the greatest epoch; none if and only if it has none |
| ScoreRepo.InMemoryScoreRepo.ScoreAtEpoch | phylanx-api/api/score_repo.py:124-130 | the table's entry for agent and epoch, if there is one |
| ScoreRepo.HistoryIsNewestFirst | phylanx-api/api/score_repo.py:132-152 | newest first, in range, within the limit; whatever is left out is older and only left out when the limit is reached |
| ScoreRepo.HistoryRefusedExactlyWhen | phylanx-api/api/score_repo.py:140-143 | an error exactly for a limit below 1 or above 1000 |
| ScoreRepo.WindowIsWhole | phylanx-api/api/score_repo.py:145-152 | a window of no more epochs than the limit loses no record |
| ScoreRepo.LoadAll | phylanx-api/api/score_repo.py:101-118 | loading any list leaves the table of its last writes |
| ScoreRepo.NewRecord | phylanx-api/api/score_repo.py:57-65 | building a record fails exactly for a score, tier, epoch or signer count out of range |
| ScoreRepo.LastWriteWins | phylanx-api/api/score_repo.py:109-112 | the last record written for an agent and epoch is the one in that table |
| SafeScore.JudgeIsExact | phylanx-api/api/safe_score.py:148-198 | each of the four outcomes, by what the table holds in the window |
| SafeScore.SafeExactlyWhen | phylanx-api/api/safe_score.py:100-198 | safe if and only if a latest record exists with another in the last `window_epochs` epochs, it is recent, and no two scores of those epochs differ by more than allowed; the reported extremes are those of the window and enclose the score, and the epochs reported are exactly those with a record |
| SafeScore.RejectionReasons | phylanx-api/api/safe_score.py:129-187 | which reason is given when, in the order of the checks, and that windows over 1000 epochs are refused |
| SafeScore.RefusedExactlyWhen | phylanx-api/api/safe_score.py:117-125 | an error is raised exactly for a window below two, a non-positive age, a negative velocity, or, when the agent has a record, a window over 1000 |
| SafeScore.AsUnix | phylanx-api/api/safe_score.py:92-97 | whole seconds, cut off towards zero |
| EvidenceRepo.InMemoryEvidencePayloadRepo.Add | phylanx-api/api/evidence_repo.py:195-213 | refused without change on a conflict; otherwise indexed, and the stored record replaced only to gain an on-chain hash |
| EvidenceRepo.InMemoryEvidencePayloadRepo.RecordOnChainHash | phylanx-api/api/evidence_repo.py:226-252 | a hash of the wrong length is refused; a known pair is then answered with its former record in every field but the on-chain hash, which is the one given; an unknown pair changes nothing |
| EvidenceRepo.ObserveSetsOnlyTheHash | phylanx-api/api/evidence_repo.py:226-252 | and no other stored record, nor the index, changes |
| EvidenceRepo.NewRecord | phylanx-api/api/evidence_repo.py:100-128 | building a record fails exactly for fields out of range or a hash that is not the payload's |
| EvidenceRepo.RefusedExactlyWhen | phylanx-api/api/evidence_repo.py:196-213 | a record is refused if and only if its pair is already answered with another payload; accepted, its pair is answered with its payload |
| EvidenceRepo.StoredIsWritten | phylanx-api/api/evidence_repo.py:205-213 | over any run a stored record is, but for its on-chain hash, the first accepted with its payload, or the one that replaced it to bring a hash |
| EvidenceRepo.AnswersAsWritten | phylanx-api/api/evidence_repo.py:215-252 | so a known pair is answered with the payload, version, signer count and time that operation wrote, whatever hashes were recorded since |
| EvidenceRepo.RunStaysValid | phylanx-api/api/evidence_repo.py:100-138 | over any run each stored record's key is the hash of its bytes and every index entry points at a stored record |
| EvidenceRepo.IndexIsWriteOnce | phylanx-api/api/evidence_repo.py:179-183 | an index entry is never changed by any later operations |
| EvidenceRepo.LookupsAreOwnExactlyWhen | phylanx-api/api/evidence_repo.py:215-221 | every lookup answers its own agent's and epoch's record if and only if no two indexed pairs share a payload |
| EvidenceRepo.SharedPayloadIsMisattributed | phylanx-api/api/evidence_repo.py:208-221 | two agents with one payload: the second is answered with the first one's record |
| EvidenceRepo.StoredIsLastRecorded | phylanx-api/api/evidence_repo.py:226-252 | over any run in which no two indexed pairs share a payload, the stored on-chain hash is the last one recorded for that agent and epoch |
| EvidenceRepo.AttestedExactlyWhen | phylanx-api/api/evidence_repo.py:130-138 | over any such run a lookup answers the pair's own record, attested if and only if the hash last recorded for the pair equals its payload's hash |

## Left out

- Broker.InMemoryBroker.Commit: partition keys are natural numbers; a negative key, which no caller passes, is not modelled.
- Broker.InMemoryBroker.Poll: logs and group states are values held in the broker's maps, so aliasing between them is not captured, nor are the zero entries a `defaultdict` gains when it is read.
- Consumer.DetectionConsumer.Consume: an interrupt out of the processor and an exception out of the broker are a crash of the state machine, not an outcome of the method; logging is left out.
- DrainLaws.DrainsExactlyWhen: `max_records` is a natural number; a negative one, which polls nothing just as zero does, is not stated.
- CallScanner.FindsTheOutermostCalls: for names without a quote, `#` or `/`, as all names the audit looks for are; which characters are alphanumeric is a parameter.
- RateLimit.SlidingWindowLimiter.Check: the clock is read before the lock is taken, so concurrent callers could present times out of order; times are taken as non-decreasing reals.
- Signature verification, transaction decoding and hashing are deterministic functions given from outside; a transaction is its signature.
- An instance that rejoins under the id of a live one is not distinguished from it.
- The lag monitor's environment settings, its time stamp and the wording of its reason (a list of parts here); the constructor takes non-negative thresholds only.
- The guarded read's detail texts and tier labels; time stamps are reals and time zones are left out, as is the evidence record's time-zone check.
- `sorted`, `sort` and `find` are library code, given as functions.
- `EventRecord.with_retry_incremented` and `retry_count`: nothing in the consumer uses them.
- `known_agents`, `by_hash`, `known_pairs`, `reset` and the broker's introspection methods: one-line reads that would add easy members.
- `ConfluentKafkaBroker`, signing, serialization and Kafka security: library and network code.
- The API's routes, schemas and metrics, the other repositories, the oracle, the on-chain programs, the SDKs and the web application.
