/** The content-addressed evidence store (phylanx-api/api/evidence_repo.py). */
module EvidenceRepo {
  import opened Prelude
  import opened EventTypes

  type Bytes = seq<Byte>

  /** A hash function; only its answers' length is known unless stated otherwise. */
  type Hash = Bytes -> Bytes

  datatype Evidence = Evidence(
    agent: string, epoch: int, payload: Bytes, payloadHash: Bytes,
    taxonomyVersion: int, signerCount: int, computedAt: int, onChainHash: Option<Bytes>)
  {
    /** What the record's constructor insists on. */
    predicate WellFormed(hash: Hash) {
      && agent != "" && epoch >= 1 && payload != []
      && |payloadHash| == 32 && hash(payload) == payloadHash
      && 0 <= taxonomyVersion <= 0xFF && signerCount >= 0
      && (onChainHash.Some? ==> |onChainHash.value| == 32)
    }

    function Key(): (string, int) { (agent, epoch) }

    /** The cert's hash has been seen, and the bytes here hash to it. */
    predicate IsThresholdAttested() {
      onChainHash.Some? && onChainHash.value == payloadHash
    }
  }

  datatype EvidenceError = Conflict | HashNot32Bytes | BadRecord

  /** Building a record fails exactly for fields out of range or a hash that is not the payload's. */
  function NewRecord(hash: Hash, e: Evidence): (r: Result<Evidence, EvidenceError>)
    ensures r.Err? <==>
      || e.agent == "" || e.epoch < 1 || e.payload == [] || |e.payloadHash| != 32 || hash(e.payload) != e.payloadHash
      || e.taxonomyVersion < 0 || e.taxonomyVersion > 255 || e.signerCount < 0
      || (e.onChainHash.Some? && |e.onChainHash.value| != 32)
    ensures r.Ok? ==> r.value == e
  {
    if e.WellFormed(hash) then Ok(e) else Err(BadRecord)
  }

  /** The primary store by payload hash and the write-once index by agent and epoch. */
  datatype Store = Store(byHash: map<Bytes, Evidence>, index: map<(string, int), Bytes>) {
    ghost predicate Valid(hash: Hash) {
      && (forall h :: h in byHash ==> byHash[h].WellFormed(hash) && byHash[h].payloadHash == h)
      && (forall h :: h in byHash ==> byHash[h].Key() in index && index[byHash[h].Key()] == h)
      && (forall k :: k in index ==> index[k] in byHash)
    }

    function EvidenceAtEpoch(agent: string, epoch: int): Option<Evidence> {
      if (agent, epoch) in index && index[(agent, epoch)] in byHash then Some(byHash[index[(agent, epoch)]]) else None
    }
  }

  function Conflicts(s: Store, r: Evidence): bool {
    r.Key() in s.index && s.index[r.Key()] != r.payloadHash
  }

  /** `add`: refused on a conflict; the stored record changes only to gain an on-chain hash it lacked. */
  function AddTo(s: Store, r: Evidence): Store {
    if Conflicts(s, r) then s
    else
      var keep := r.payloadHash in s.byHash && (s.byHash[r.payloadHash].onChainHash.Some? || r.onChainHash.None?);
      Store(if keep then s.byHash else s.byHash[r.payloadHash := r], s.index[r.Key() := r.payloadHash])
  }

  /** `record_on_chain_hash`, for a hash of the right length: nothing happens for an unknown agent and epoch. */
  function Observe(s: Store, key: (string, int), onChain: Bytes): Store {
    if key !in s.index || s.index[key] !in s.byHash then s
    else
      var h := s.index[key];
      s.(byHash := s.byHash[h := s.byHash[h].(onChainHash := Some(onChain))])
  }

  lemma AddStaysValid(hash: Hash, s: Store, r: Evidence)
    requires s.Valid(hash) && r.WellFormed(hash)
    ensures AddTo(s, r).Valid(hash)
  {
  }

  lemma ObserveStaysValid(hash: Hash, s: Store, key: (string, int), onChain: Bytes)
    requires s.Valid(hash) && |onChain| == 32
    ensures Observe(s, key, onChain).Valid(hash)
  {
  }

  class InMemoryEvidencePayloadRepo {
    ghost const hash: Hash
    var byHash: map<Bytes, Evidence>
    var byAgentEpoch: map<(string, int), Bytes>

    ghost function Contents(): Store
      reads this
    {
      Store(byHash, byAgentEpoch)
    }

    ghost predicate Valid()
      reads this
    {
      Contents().Valid(hash)
    }

    constructor (ghost hash: Hash)
      ensures Valid() && Contents() == Store(map[], map[]) && this.hash == hash
    {
      this.hash := hash;
      byHash, byAgentEpoch := map[], map[];
    }

    method Add(record: Evidence) returns (r: Result<(), EvidenceError>)
      requires Valid() && record.WellFormed(hash)
      modifies this
      ensures Valid() && Contents() == AddTo(old(Contents()), record)
      ensures r == if Conflicts(old(Contents()), record) then Err(Conflict) else Ok(())
    {
      AddStaysValid(hash, Contents(), record);
      var key := (record.agent, record.epoch);
      if key in byAgentEpoch && byAgentEpoch[key] != record.payloadHash { return Err(Conflict); }
      var prev := if record.payloadHash in byHash then Some(byHash[record.payloadHash]) else None;
      if prev.Some? && prev.value.onChainHash.None? && record.onChainHash.Some? {
        byHash := byHash[record.payloadHash := record];
      } else if prev.None? {
        byHash := byHash[record.payloadHash := record];
      }
      byAgentEpoch := byAgentEpoch[key := record.payloadHash];
      return Ok(());
    }

    method RecordOnChainHash(agent: string, epoch: int, onChain: Bytes) returns (r: Result<(), EvidenceError>)
      requires Valid()
      modifies this
      ensures Valid()
      ensures |onChain| != 32 ==> r == Err(HashNot32Bytes) && Contents() == old(Contents())
      ensures |onChain| == 32 ==> r == Ok(()) && Contents() == Observe(old(Contents()), (agent, epoch), onChain)
      ensures |onChain| == 32 && (agent, epoch) in old(byAgentEpoch) ==>
        var before := old(Contents()).EvidenceAtEpoch(agent, epoch);
        var after := Contents().EvidenceAtEpoch(agent, epoch);
        before.Some? && after == Some(Evidence(before.value.agent, before.value.epoch, before.value.payload, before.value.payloadHash,
          before.value.taxonomyVersion, before.value.signerCount, before.value.computedAt, Some(onChain)))
    {
      if |onChain| != 32 { return Err(HashNot32Bytes); }
      ObserveStaysValid(hash, Contents(), (agent, epoch), onChain);
      if (agent, epoch) !in byAgentEpoch { return Ok(()); }
      var h := byAgentEpoch[(agent, epoch)];
      var rec := byHash[h];
      if rec.onChainHash == Some(onChain) {
        assert byHash[h := rec.(onChainHash := Some(onChain))] == byHash;
        return Ok(());
      }
      byHash := byHash[rec.payloadHash := rec.(onChainHash := Some(onChain))];
      return Ok(());
    }
  }

  /**
   Recording a hash sets it on the record that the pair is answered with, whose other fields stay as
   they were, and touches no other record; for an unknown pair it does nothing at all.
   */
  lemma ObserveSetsOnlyTheHash(hash: Hash, s: Store, agent: string, epoch: int, onChain: Bytes)
    requires s.Valid(hash)
    ensures var t := Observe(s, (agent, epoch), onChain);
      var before, after := s.EvidenceAtEpoch(agent, epoch), t.EvidenceAtEpoch(agent, epoch);
      && t.index == s.index && t.byHash.Keys == s.byHash.Keys
      && (if before.None? then t == s
          else
            && after == Some(Evidence(before.value.agent, before.value.epoch, before.value.payload, before.value.payloadHash,
                 before.value.taxonomyVersion, before.value.signerCount, before.value.computedAt, Some(onChain)))
            && (forall h :: h in s.byHash && h != before.value.payloadHash ==> t.byHash[h] == s.byHash[h]))
  {
  }

  /** A record is refused if and only if the pair is already answered with another payload. */
  lemma RefusedExactlyWhen(hash: Hash, s: Store, r: Evidence)
    requires s.Valid(hash) && r.WellFormed(hash)
    ensures Conflicts(s, r) <==>
      s.EvidenceAtEpoch(r.agent, r.epoch).Some? && s.EvidenceAtEpoch(r.agent, r.epoch).value.payloadHash != r.payloadHash
    ensures if Conflicts(s, r) then AddTo(s, r) == s
      else
        var answer := AddTo(s, r).EvidenceAtEpoch(r.agent, r.epoch);
        answer.Some? && answer.value.payloadHash == r.payloadHash && hash(answer.value.payload) == r.payloadHash
  {
  }

  // ---- whole runs ----

  datatype Op = Adds(record: Evidence) | Observes(key: (string, int), onChain: Bytes)

  ghost predicate Proper(hash: Hash, op: Op) {
    match op
    case Adds(r) => r.WellFormed(hash)
    case Observes(_, onChain) => |onChain| == 32
  }

  function Step(s: Store, op: Op): Store {
    match op
    case Adds(r) => AddTo(s, r)
    case Observes(key, onChain) => Observe(s, key, onChain)
  }

  function After(ops: seq<Op>): Store {
    if ops == [] then Store(map[], map[]) else Step(After(ops[..|ops| - 1]), ops[|ops| - 1])
  }

  /** Every stored record's key is the hash of its bytes, and every index entry points at a stored record. */
  lemma {:induction false} RunStaysValid(hash: Hash, ops: seq<Op>)
    requires forall i :: 0 <= i < |ops| ==> Proper(hash, ops[i])
    ensures After(ops).Valid(hash)
  {
    if ops != [] {
      var before := After(ops[..|ops| - 1]);
      RunStaysValid(hash, ops[..|ops| - 1]);
      match ops[|ops| - 1]
      case Adds(r) => AddStaysValid(hash, before, r);
      case Observes(key, onChain) => ObserveStaysValid(hash, before, key, onChain);
    }
  }

  /** An index entry, once written, is the same after any further operations. */
  lemma {:induction false} IndexIsWriteOnce(ops: seq<Op>, more: seq<Op>, k: (string, int))
    requires k in After(ops).index
    ensures k in After(ops + more).index && After(ops + more).index[k] == After(ops).index[k]
    decreases |more|
  {
    if more == [] {
      assert ops + more == ops;
    } else {
      IndexIsWriteOnce(ops, more[..|more| - 1], k);
      assert (ops + more)[..|ops + more| - 1] == ops + more[..|more| - 1];
    }
  }

  /** Different agents or epochs have different payload hashes. */
  ghost predicate PayloadTellsKey(s: Store) {
    forall j, k :: j in s.index && k in s.index && s.index[j] == s.index[k] ==> j == k
  }

  /**
   The store is addressed by content alone, so a lookup answers the record of the agent and epoch
   it was asked for, for all that are known, if and only if no two of them share a payload.
   */
  lemma LookupsAreOwnExactlyWhen(hash: Hash, s: Store)
    requires s.Valid(hash)
    ensures (forall a, e :: (a, e) in s.index ==> s.EvidenceAtEpoch(a, e).Some? && s.EvidenceAtEpoch(a, e).value.Key() == (a, e))
      <==> PayloadTellsKey(s)
  {
    if forall a, e :: (a, e) in s.index ==> s.EvidenceAtEpoch(a, e).Some? && s.EvidenceAtEpoch(a, e).value.Key() == (a, e) {
      forall j, k | j in s.index && k in s.index && s.index[j] == s.index[k] ensures j == k {
        assert s.EvidenceAtEpoch(j.0, j.1) == s.EvidenceAtEpoch(k.0, k.1);
      }
    }
  }

  /** Two agents with the same payload: the second is answered with the first one's record. */
  lemma SharedPayloadIsMisattributed(hash: Hash, payload: Bytes)
    requires payload != [] && |hash(payload)| == 32
    ensures var a := Evidence("a", 1, payload, hash(payload), 0, 1, 0, None);
      var b := Evidence("b", 1, payload, hash(payload), 0, 1, 0, None);
      a.WellFormed(hash) && b.WellFormed(hash) && After([Adds(a), Adds(b)]).EvidenceAtEpoch("b", 1) == Some(a)
  {
    var a := Evidence("a", 1, payload, hash(payload), 0, 1, 0, None);
    var b := Evidence("b", 1, payload, hash(payload), 0, 1, 0, None);
    assert [Adds(a), Adds(b)][..1] == [Adds(a)] && [Adds(a)][..0] == [];
    assert After([Adds(a)]) == AddTo(Store(map[], map[]), a);
  }

  function Recorded(s: Store, op: Op, k: (string, int), last: Option<Bytes>): Option<Bytes> {
    match op
    case Observes(key, onChain) => if key == k && k in s.index then Some(onChain) else last
    case Adds(r) => if r.Key() == k && !Conflicts(s, r) && last.None? then r.onChainHash else last
  }

  /**
   The on-chain hash last recorded for an agent and epoch: the last one observed once its payload
   was known; failing that, the first one that came with the payload.
   */
  function LastRecorded(ops: seq<Op>, k: (string, int)): Option<Bytes> {
    if ops == [] then None
    else
      var init := ops[..|ops| - 1];
      Recorded(After(init), ops[|ops| - 1], k, LastRecorded(init, k))
  }

  /** Whoever is not indexed has nothing recorded. */
  lemma {:induction false} UnknownHasNone(ops: seq<Op>, k: (string, int))
    requires k !in After(ops).index
    ensures LastRecorded(ops, k) == None
  {
    if ops != [] { UnknownHasNone(ops[..|ops| - 1], k); }
  }

  function StoredHash(s: Store, k: (string, int)): Option<Bytes> {
    if k in s.index && s.index[k] in s.byHash then s.byHash[s.index[k]].onChainHash else None
  }

  lemma AddRecords(hash: Hash, s: Store, r: Evidence, k: (string, int))
    requires s.Valid(hash) && r.WellFormed(hash) && PayloadTellsKey(AddTo(s, r)) && k in AddTo(s, r).index
    ensures StoredHash(AddTo(s, r), k) == Recorded(s, Adds(r), k, StoredHash(s, k))
  {
    hide Evidence.WellFormed;
    var t := AddTo(s, r);
    AddStaysValid(hash, s, r);
    if r.Key() != k && !Conflicts(s, r) {
      assert t.index[k] != t.index[r.Key()];
    }
  }

  lemma ObserveRecords(hash: Hash, s: Store, key: (string, int), onChain: Bytes, k: (string, int))
    requires s.Valid(hash) && PayloadTellsKey(s) && k in s.index
    ensures StoredHash(Observe(s, key, onChain), k) == Recorded(s, Observes(key, onChain), k, StoredHash(s, k))
  {
    hide Evidence.WellFormed;
  }

  lemma NothingStored(s: Store, k: (string, int))
    requires k !in s.index
    ensures StoredHash(s, k) == None
  {
  }

  lemma ObserveKeepsIndex(s: Store, key: (string, int), onChain: Bytes)
    ensures Observe(s, key, onChain).index == s.index
  {
  }

  /** What is stored for a known agent and epoch is what was recorded last. */
  lemma {:induction false} StoredIsLastRecorded(hash: Hash, ops: seq<Op>, k: (string, int))
    requires forall i :: 0 <= i < |ops| ==> Proper(hash, ops[i])
    requires PayloadTellsKey(After(ops)) && k in After(ops).index
    ensures StoredHash(After(ops), k) == LastRecorded(ops, k)
  {
    hide Store.Valid, AddTo, Observe, Recorded, StoredHash;
    var init, op := ops[..|ops| - 1], ops[|ops| - 1];
    var before := After(init);
    assert Proper(hash, op);
    RunStaysValid(hash, init);
    assert ops == init + [op];
    forall j | j in before.index ensures j in After(ops).index && After(ops).index[j] == before.index[j] { IndexIsWriteOnce(init, [op], j); }
    if k in before.index {
      StoredIsLastRecorded(hash, init, k);
    } else {
      UnknownHasNone(init, k);
      NothingStored(before, k);
    }
    match op
    case Adds(r) => AddRecords(hash, before, r, k);
    case Observes(key, onChain) =>
      ObserveKeepsIndex(before, key, onChain);
      ObserveRecords(hash, before, key, onChain, k);
  }

  /**
   Attestation. When payloads tell agents and epochs apart, a known agent and epoch is answered with
   its own record, attested if and only if the on-chain hash last recorded for it is its payload's.
   */
  lemma AttestedExactlyWhen(hash: Hash, ops: seq<Op>, k: (string, int))
    requires forall i :: 0 <= i < |ops| ==> Proper(hash, ops[i])
    requires PayloadTellsKey(After(ops)) && k in After(ops).index
    ensures var s := After(ops);
      var answer := s.EvidenceAtEpoch(k.0, k.1);
      && answer.Some? && answer.value.Key() == k
      && (answer.value.IsThresholdAttested() <==> LastRecorded(ops, k) == Some(answer.value.payloadHash))
  {
    RunStaysValid(hash, ops);
    LookupsAreOwnExactlyWhen(hash, After(ops));
    StoredIsLastRecorded(hash, ops, k);
    assert (k.0, k.1) == k;
  }

  // ---- whose record it is ----

  /** The operation stores its record: the first with its payload, or one that brings the on-chain hash still missing. */
  ghost predicate Writes(ops: seq<Op>, i: nat, h: Bytes) {
    && i < |ops| && ops[i].Adds? && ops[i].record.payloadHash == h
    && var s, r := After(ops[..i]), ops[i].record;
    && (r.Key() in s.index ==> s.index[r.Key()] == h)
    && (h in s.byHash ==> s.byHash[h].onChainHash.None? && r.onChainHash.Some?)
  }

  /** The stored record is that of operation `i` in all but its on-chain hash. */
  ghost predicate StoredBy(ops: seq<Op>, i: nat, h: Bytes)
    requires h in After(ops).byHash
  {
    && i < |ops| && ops[i].Adds? && Writes(ops, i, h)
    && (forall j :: i < j < |ops| ==> !Writes(ops, j, h))
    && After(ops).byHash[h].(onChainHash := None) == ops[i].record.(onChainHash := None)
  }

  lemma WriterAdds(ops: seq<Op>, i: nat, h: Bytes)
    requires Writes(ops, i, h)
    ensures i < |ops| && ops[i].Adds?
  {
  }

  lemma WritesInLonger(ops: seq<Op>, op: Op, i: nat, h: Bytes)
    requires i < |ops|
    ensures Writes(ops + [op], i, h) <==> Writes(ops, i, h)
  {
    assert (ops + [op])[..i] == ops[..i];
  }

  lemma WritesLast(init: seq<Op>, op: Op, h: Bytes)
    ensures Writes(init + [op], |init|, h) <==>
      op.Adds? && op.record.payloadHash == h
      && var s, r := After(init), op.record;
      && (r.Key() in s.index ==> s.index[r.Key()] == h)
      && (h in s.byHash ==> s.byHash[h].onChainHash.None? && r.onChainHash.Some?)
  {
    assert (init + [op])[..|init|] == init;
  }

  /** One operation: the record under `h` is its own if it writes there, and otherwise the former one but for the hash. */
  lemma StepWrites(s: Store, op: Op, h: Bytes)
    requires h in Step(s, op).byHash
    ensures var writes := op.Adds? && op.record.payloadHash == h
        && (op.record.Key() in s.index ==> s.index[op.record.Key()] == h)
        && (h in s.byHash ==> s.byHash[h].onChainHash.None? && op.record.onChainHash.Some?);
      if writes then Step(s, op).byHash[h] == op.record
      else h in s.byHash && Step(s, op).byHash[h].(onChainHash := None) == s.byHash[h].(onChainHash := None)
  {
  }

  /**
   Over any run, every stored record is, in all but its on-chain hash, the one that the last writing
   operation brought: the first accepted with its payload, or the one that replaced it to bring a hash.
   */
  lemma {:induction false} StoredIsWritten(ops: seq<Op>, h: Bytes) returns (i: nat)
    requires h in After(ops).byHash
    ensures StoredBy(ops, i, h)
  {
    hide AddTo, Observe, Step, Writes;
    assert ops != [];
    var init, op := ops[..|ops| - 1], ops[|ops| - 1];
    assert ops == init + [op];
    StepWrites(After(init), op, h);
    WritesLast(init, op, h);
    if Writes(ops, |init|, h) {
      i := |init|;
      WriterAdds(ops, i, h);
    } else {
      i := StoredIsWritten(init, h);
      WritesInLonger(init, op, i, h);
      forall j: nat | j < |init| ensures Writes(ops, j, h) <==> Writes(init, j, h) { WritesInLonger(init, op, j, h); }
      assert ops[i] == init[i];
    }
  }

  /**
   What a known pair is answered with: the payload, the taxonomy version, the signer count and the time
   of the operation that wrote them, whatever on-chain hashes were recorded since.
   */
  lemma AnswersAsWritten(hash: Hash, ops: seq<Op>, k: (string, int)) returns (i: nat)
    requires forall i :: 0 <= i < |ops| ==> Proper(hash, ops[i])
    requires k in After(ops).index
    ensures var answer := After(ops).EvidenceAtEpoch(k.0, k.1);
      && answer.Some? && answer.value.payloadHash in After(ops).byHash && StoredBy(ops, i, answer.value.payloadHash)
      && var written, read := ops[i].record, answer.value;
      && read.agent == written.agent && read.epoch == written.epoch && read.payload == written.payload
      && read.taxonomyVersion == written.taxonomyVersion && read.signerCount == written.signerCount && read.computedAt == written.computedAt
  {
    hide AddTo, Observe, Writes;
    RunStaysValid(hash, ops);
    assert (k.0, k.1) == k;
    i := StoredIsWritten(ops, After(ops).index[k]);
  }
}
