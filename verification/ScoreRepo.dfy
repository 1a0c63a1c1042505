/** The in-memory score repository (phylanx-api/api/score_repo.py), against a last-write-wins table. */
module ScoreRepo {
  import opened Prelude

  datatype ScoreFields = ScoreFields(
    agent: string, epoch: int, score: int, alertTier: int, flags: int,
    immediateRed: bool, signerCount: int, computedAt: real)
  {
    predicate Valid() { 0 <= score <= 1000 && 0 <= alertTier <= 2 && epoch >= 1 && signerCount >= 1 }
  }

  /** A score record; the constructor refuses fields out of range. */
  type ScoreRecord = r: ScoreFields | r.Valid() witness ScoreFields("", 1, 0, 0, 0, false, 1, 0.0)

  datatype RepoError = ValueError

  /** Building a record fails exactly for fields out of range. */
  function NewRecord(f: ScoreFields): (r: Result<ScoreRecord, RepoError>)
    ensures r.Err? <==>
      f.score < 0 || f.score > 1000 || f.alertTier !in {0, 1, 2} || f.epoch < 1 || f.signerCount < 1
    ensures r.Ok? ==> r.value == f
  {
    if f.Valid() then Ok(f) else Err(ValueError)
  }

  // ---- lists of records ----

  function Filter(s: seq<ScoreRecord>, keep: ScoreRecord -> bool): seq<ScoreRecord> {
    if s == [] then []
    else Filter(s[..|s| - 1], keep) + if keep(s[|s| - 1]) then [s[|s| - 1]] else []
  }

  function Insert(s: seq<ScoreRecord>, r: ScoreRecord): seq<ScoreRecord> {
    if s == [] || s[|s| - 1].epoch <= r.epoch then s + [r]
    else Insert(s[..|s| - 1], r) + [s[|s| - 1]]
  }

  /** Stable sort by epoch. */
  function SortByEpoch(s: seq<ScoreRecord>): seq<ScoreRecord> {
    if s == [] then [] else Insert(SortByEpoch(s[..|s| - 1]), s[|s| - 1])
  }

  function Reverse(s: seq<ScoreRecord>): (r: seq<ScoreRecord>)
    ensures |r| == |s| && forall i :: 0 <= i < |s| ==> r[i] == s[|s| - 1 - i]
  {
    if s == [] then [] else [s[|s| - 1]] + Reverse(s[..|s| - 1])
  }

  ghost predicate Ascending(s: seq<ScoreRecord>) {
    forall i, j :: 0 <= i < j < |s| ==> s[i].epoch < s[j].epoch
  }

  lemma {:induction false} FilterKeeps(s: seq<ScoreRecord>, keep: ScoreRecord -> bool)
    ensures forall r :: r in Filter(s, keep) <==> r in s && keep(r)
    ensures Ascending(s) ==> Ascending(Filter(s, keep))
  {
    if s != [] {
      var init, last := s[..|s| - 1], s[|s| - 1];
      FilterKeeps(init, keep);
      assert s == init + [last];
      assert forall i :: 0 <= i < |Filter(init, keep)| ==> Filter(init, keep)[i] in Filter(init, keep);
    }
  }

  lemma {:induction false} InsertKeeps(s: seq<ScoreRecord>, r: ScoreRecord)
    requires Ascending(s) && forall x :: x in s ==> x.epoch != r.epoch
    ensures Ascending(Insert(s, r)) && forall x :: x in Insert(s, r) <==> x in s || x == r
  {
    if s != [] && s[|s| - 1].epoch > r.epoch {
      var init, last := s[..|s| - 1], s[|s| - 1];
      InsertKeeps(init, r);
      assert s == init + [last];
      assert forall i :: 0 <= i < |Insert(init, r)| ==> Insert(init, r)[i] in Insert(init, r);
      assert forall x :: x in init ==> x.epoch < last.epoch;
    }
  }

  /** Sorting an ascending list changes nothing. */
  lemma {:induction false} SortedStays(s: seq<ScoreRecord>)
    requires Ascending(s)
    ensures SortByEpoch(s) == s
  {
    if s != [] {
      SortedStays(s[..|s| - 1]);
      assert s == s[..|s| - 1] + [s[|s| - 1]];
    }
  }

  /** Between two epochs an ascending list has at most one record for each epoch. */
  lemma {:induction false} AtMostOnePerEpoch(s: seq<ScoreRecord>, lo: int, hi: int)
    requires Ascending(s) && forall i :: 0 <= i < |s| ==> lo <= s[i].epoch <= hi
    ensures |s| <= if hi >= lo then hi - lo + 1 else 0
  {
    if s != [] { AtMostOnePerEpoch(s[..|s| - 1], lo, s[|s| - 1].epoch - 1); }
  }

  // ---- buckets and the table they stand for ----

  type Table = map<(string, int), ScoreRecord>

  /** The record is the last one written for this agent and its epoch. */
  ghost predicate Holds(t: Table, agent: string, r: ScoreRecord) {
    (agent, r.epoch) in t && t[(agent, r.epoch)] == r
  }

  predicate Within(from: Option<int>, to: Option<int>, epoch: int) {
    (from.None? || epoch >= from.value) && (to.None? || epoch <= to.value)
  }

  ghost predicate InRange(t: Table, agent: string, from: Option<int>, to: Option<int>, r: ScoreRecord) {
    Holds(t, agent, r) && Within(from, to, r.epoch)
  }

  /** A bucket holds exactly one agent's records, in ascending order of epochs. */
  ghost predicate Matches(bucket: seq<ScoreRecord>, t: Table, agent: string) {
    Ascending(bucket) && forall r :: r in bucket <==> Holds(t, agent, r)
  }

  ghost predicate KeyedByEpoch(t: Table) {
    forall k :: k in t ==> t[k].epoch == k.1
  }

  function Added(bucket: seq<ScoreRecord>, record: ScoreRecord): seq<ScoreRecord> {
    SortByEpoch(Filter(bucket, (r: ScoreRecord) => r.epoch != record.epoch) + [record])
  }

  lemma SortsLast(s: seq<ScoreRecord>, r: ScoreRecord)
    ensures SortByEpoch(s + [r]) == Insert(SortByEpoch(s), r)
  {
    assert (s + [r])[..|s|] == s;
  }

  lemma AddedMatches(bucket: seq<ScoreRecord>, t: Table, record: ScoreRecord)
    requires Matches(bucket, t, record.agent) && KeyedByEpoch(t)
    ensures Matches(Added(bucket, record), t[(record.agent, record.epoch) := record], record.agent)
  {
    hide SortByEpoch, Filter, Insert;
    var keep := (r: ScoreRecord) => r.epoch != record.epoch;
    var others := Filter(bucket, keep);
    FilterKeeps(bucket, keep);
    SortedStays(others);
    InsertKeeps(others, record);
    SortsLast(others, record);
  }

  lemma OthersStillMatch(bucket: seq<ScoreRecord>, t: Table, agent: string, record: ScoreRecord)
    requires Matches(bucket, t, agent) && agent != record.agent
    ensures Matches(bucket, t[(record.agent, record.epoch) := record], agent)
  {
    forall r ensures Holds(t, agent, r) <==> Holds(t[(record.agent, record.epoch) := record], agent, r) {}
  }

  function History(bucket: seq<ScoreRecord>, from: Option<int>, to: Option<int>, limit: int): Result<seq<ScoreRecord>, RepoError> {
    if limit < 1 || limit > 1000 then Err(ValueError)
    else Ok(Take(Reverse(SortByEpoch(Filter(bucket, (r: ScoreRecord) => Within(from, to, r.epoch)))), limit))
  }

  ghost predicate Descending(h: seq<ScoreRecord>) {
    forall i, j :: 0 <= i < j < |h| ==> h[i].epoch > h[j].epoch
  }

  lemma NewestOfSorted(kept: seq<ScoreRecord>, limit: int)
    requires Ascending(kept) && limit >= 1
    ensures var h := Take(Reverse(kept), limit);
      && |h| <= limit && Descending(h)
      && (forall r :: r in h ==> r in kept)
      && (forall r :: r in kept && r !in h ==> |h| == limit && forall x :: x in h ==> x.epoch > r.epoch)
  {
    hide Reverse;
    var down := Reverse(kept);
    var h := Take(down, limit);
    forall r | r in kept && r !in h ensures |h| == limit && forall x :: x in h ==> x.epoch > r.epoch {
      var i :| 0 <= i < |kept| && kept[i] == r;
      assert down[|kept| - 1 - i] == r;
    }
  }

  /**
   A history is newest first, within range and limit; and unless it reached the limit with only
   older records left out, it is all there is.
   */
  lemma HistoryIsNewestFirst(bucket: seq<ScoreRecord>, t: Table, agent: string, from: Option<int>, to: Option<int>, limit: int)
    requires Matches(bucket, t, agent) && 1 <= limit <= 1000
    ensures History(bucket, from, to, limit).Ok?
    ensures var h := History(bucket, from, to, limit).value;
      && |h| <= limit && Descending(h)
      && (forall r :: r in h ==> InRange(t, agent, from, to, r))
      && (forall r :: InRange(t, agent, from, to, r) && r !in h ==> |h| == limit && forall x :: x in h ==> x.epoch > r.epoch)
  {
    hide SortByEpoch, Filter, Holds, Within;
    var within := (r: ScoreRecord) => Within(from, to, r.epoch);
    var kept := Filter(bucket, within);
    FilterKeeps(bucket, within);
    SortedStays(kept);
    NewestOfSorted(kept, limit);
    assert forall r :: r in kept <==> InRange(t, agent, from, to, r);
  }

  /** A history is refused for a limit out of range, and for nothing else. */
  lemma HistoryRefusedExactlyWhen(bucket: seq<ScoreRecord>, from: Option<int>, to: Option<int>, limit: int)
    ensures History(bucket, from, to, limit).Err? <==> limit < 1 || limit > 1000
  {
  }

  /** A window of consecutive epochs no longer than the limit loses no record to the limit. */
  lemma WindowIsWhole(bucket: seq<ScoreRecord>, t: Table, agent: string, lo: int, hi: int, limit: int)
    requires Matches(bucket, t, agent) && 1 <= limit <= 1000 && hi - lo + 1 <= limit
    ensures History(bucket, Some(lo), Some(hi), limit).Ok?
    ensures var h := History(bucket, Some(lo), Some(hi), limit).value;
      Descending(h) && forall r :: r in h <==> InRange(t, agent, Some(lo), Some(hi), r)
  {
    hide History, Holds;
    HistoryIsNewestFirst(bucket, t, agent, Some(lo), Some(hi), limit);
    var h := History(bucket, Some(lo), Some(hi), limit).value;
    assert forall i :: 0 <= i < |h| ==> h[i] in h;
    forall r | InRange(t, agent, Some(lo), Some(hi), r) ensures r in h {
      if r !in h {
        var longer := [r] + Reverse(h);
        assert Ascending(longer);
        AtMostOnePerEpoch(longer, lo, hi);
        assert false;
      }
    }
  }

  // ---- the repository ----

  class InMemoryScoreRepo {
    var byAgent: map<string, seq<ScoreRecord>>

    /** The last record written for each agent and epoch. */
    ghost var table: Table

    ghost predicate Valid()
      reads this
    {
      KeyedByEpoch(table) && forall a :: Matches(Bucket(a), table, a)
    }

    function Bucket(agent: string): seq<ScoreRecord>
      reads this
    {
      if agent in byAgent then byAgent[agent] else []
    }

    constructor ()
      ensures Valid() && table == map[]
    {
      byAgent, table := map[], map[];
    }

    /** Store a record; the newest write for an agent and epoch wins. */
    method Add(record: ScoreRecord)
      requires Valid()
      modifies this
      ensures Valid() && table == old(table)[(record.agent, record.epoch) := record]
    {
      hide Matches, SortByEpoch, Filter;
      var bucket := Filter(Bucket(record.agent), (r: ScoreRecord) => r.epoch != record.epoch);
      bucket := bucket + [record];
      bucket := SortByEpoch(bucket);
      AddedMatches(Bucket(record.agent), table, record);
      ghost var before := table;
      byAgent := byAgent[record.agent := bucket];
      table := table[(record.agent, record.epoch) := record];
      forall a ensures Matches(Bucket(a), table, a) {
        if a != record.agent { OthersStillMatch(old(Bucket(a)), before, a, record); }
      }
    }

    /** The record with the greatest epoch, if the agent has any. */
    function LatestScore(agent: string): (r: Option<ScoreRecord>)
      requires Valid()
      reads this
      ensures r.None? <==> forall k :: k in table ==> k.0 != agent
      ensures r.Some? ==> Holds(table, agent, r.value)
      ensures r.Some? ==> forall k :: k in table && k.0 == agent ==> k.1 <= r.value.epoch
    {
      var bucket := Bucket(agent);
      assert Matches(bucket, table, agent);
      assert forall k :: k in table && k.0 == agent ==> Holds(table, agent, table[k]);
      if bucket == [] then None
      else
        assert bucket[|bucket| - 1] in bucket;
        Some(bucket[|bucket| - 1])
    }

    method ScoreAtEpoch(agent: string, epoch: int) returns (r: Option<ScoreRecord>)
      requires Valid()
      ensures r == if (agent, epoch) in table then Some(table[(agent, epoch)]) else None
    {
      var bucket := Bucket(agent);
      assert Matches(bucket, table, agent);
      for i := 0 to |bucket|
        invariant forall j :: 0 <= j < i ==> bucket[j].epoch != epoch
      {
        assert bucket[i] in bucket;
        if bucket[i].epoch == epoch { return Some(bucket[i]); }
      }
      if (agent, epoch) in table {
        assert Holds(table, agent, table[(agent, epoch)]);
      }
      return None;
    }

    /** An agent's records within an epoch range, newest first, at most `limit` of them. */
    function ScoreHistory(agent: string, from: Option<int>, to: Option<int>, limit: int): Result<seq<ScoreRecord>, RepoError>
      reads this
    {
      History(Bucket(agent), from, to, limit)
    }
  }

  // ---- the table over any sequence of writes ----

  function Written(records: seq<ScoreRecord>): Table {
    if records == [] then map[]
    else
      var last := records[|records| - 1];
      Written(records[..|records| - 1])[(last.agent, last.epoch) := last]
  }

  /** Loading a list of records leaves exactly the last one written for each agent and epoch. */
  method LoadAll(records: seq<ScoreRecord>) returns (repo: InMemoryScoreRepo)
    ensures fresh(repo) && repo.Valid() && repo.table == Written(records)
  {
    repo := new InMemoryScoreRepo();
    for i := 0 to |records|
      invariant fresh(repo) && repo.Valid() && repo.table == Written(records[..i])
    {
      repo.Add(records[i]);
      assert records[..i + 1][..i] == records[..i];
    }
    assert records[..|records|] == records;
  }

  lemma {:induction false} LastWriteWins(records: seq<ScoreRecord>, i: nat)
    requires i < |records|
    requires forall j :: i < j < |records| ==> (records[j].agent, records[j].epoch) != (records[i].agent, records[i].epoch)
    ensures var k := (records[i].agent, records[i].epoch); k in Written(records) && Written(records)[k] == records[i]
  {
    if i < |records| - 1 {
      assert records[..|records| - 1][i] == records[i];
      LastWriteWins(records[..|records| - 1], i);
    }
  }
}
