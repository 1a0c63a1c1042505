/** The guarded score read (phylanx-api/api/safe_score.py). */
module SafeScore {
  import opened Prelude
  import opened ScoreRepo

  const MIN_HISTORY_REQUIRED := 2

  datatype Reason = StaleCert | VelocityExceeded | InsufficientHistory

  datatype SafeScoreResult =
    | Safe(score: int, alertTier: int, epoch: int, issuedAt: int, velocityMin: int, velocityMax: int, windowEpochs: seq<int>)
    | Rejected(reason: Reason)

  /** Whole seconds of a timestamp, cut off towards zero. */
  function AsUnix(t: real): (seconds: int)
    ensures t >= 0.0 ==> seconds as real <= t < (seconds + 1) as real
    ensures t < 0.0 ==> (seconds - 1) as real < t <= seconds as real
  {
    if t >= 0.0 then t.Floor else -(-t).Floor
  }

  function MinScore(h: seq<ScoreRecord>): (m: int)
    requires h != []
    ensures (forall r :: r in h ==> m <= r.score) && exists r :: r in h && r.score == m
  {
    if |h| == 1 then h[0].score
    else
      var m := MinScore(h[1..]);
      assert h == [h[0]] + h[1..];
      if h[0].score < m then h[0].score else m
  }

  function MaxScore(h: seq<ScoreRecord>): (m: int)
    requires h != []
    ensures (forall r :: r in h ==> r.score <= m) && exists r :: r in h && r.score == m
  {
    if |h| == 1 then h[0].score
    else
      var m := MaxScore(h[1..]);
      assert h == [h[0]] + h[1..];
      if h[0].score > m then h[0].score else m
  }

  function EpochsOf(h: seq<ScoreRecord>): (r: seq<int>)
    ensures |r| == |h|
  {
    seq(|h|, i requires 0 <= i < |h| => h[i].epoch)
  }

  function WindowStart(current: int, window: int): int {
    if current - (window - 1) > 1 then current - (window - 1) else 1
  }

  /** The checks on what the repository answered, in their order. */
  function Judge(latest: ScoreRecord, h: seq<ScoreRecord>, now: int, maxAge: int, maxVelocity: int): SafeScoreResult {
    var issued := AsUnix(latest.computedAt);
    if |h| < MIN_HISTORY_REQUIRED then Rejected(InsufficientHistory)
    else if now - issued > maxAge then Rejected(StaleCert)
    else if MaxScore(h) - MinScore(h) > maxVelocity then Rejected(VelocityExceeded)
    else Safe(latest.score, latest.alertTier, latest.epoch, issued, MinScore(h), MaxScore(h), EpochsOf(Reverse(h)))
  }

  function ComputeSafeScore(repo: InMemoryScoreRepo, wallet: string, now: int, maxAge: int, maxVelocity: int, window: int)
    : Result<SafeScoreResult, RepoError>
    requires repo.Valid()
    reads repo
  {
    if window < MIN_HISTORY_REQUIRED || maxAge <= 0 || maxVelocity < 0 then Err(ValueError)
    else
      var latest := repo.LatestScore(wallet);
      if latest.None? then Ok(Rejected(InsufficientHistory))
      else
        var current := latest.value.epoch;
        match repo.ScoreHistory(wallet, Some(WindowStart(current, window)), Some(current), window)
        case Err(e) => Err(e)
        case Ok(h) => Ok(Judge(latest.value, h, now, maxAge, maxVelocity))
  }

  /** The agent's records of the last `window` epochs up to its latest. */
  ghost predicate InWindow(t: Table, wallet: string, current: int, window: int, r: ScoreRecord) {
    Holds(t, wallet, r) && current - window < r.epoch <= current
  }

  /** What is read from the repository is that window: epochs start at one. */
  lemma WindowIsRange(t: Table, wallet: string, current: int, window: int, r: ScoreRecord)
    ensures InRange(t, wallet, Some(WindowStart(current, window)), Some(current), r) <==> InWindow(t, wallet, current, window, r)
  {
    assert r.Valid();
  }

  /** The agent has a second record in the window of its latest. */
  ghost predicate HasCompany(t: Table, wallet: string, latest: ScoreRecord, window: int) {
    exists other :: other != latest && InWindow(t, wallet, latest.epoch, window, other)
  }

  /** No two records of the window differ by more than the allowed velocity. */
  ghost predicate Steady(t: Table, wallet: string, current: int, window: int, maxVelocity: int) {
    forall a, b :: InWindow(t, wallet, current, window, a) && InWindow(t, wallet, current, window, b)
      ==> a.score - b.score <= maxVelocity
  }

  lemma TwoRecords(h: seq<ScoreRecord>, r: ScoreRecord)
    requires r in h && Descending(h)
    ensures |h| >= 2 <==> exists other :: other in h && other != r
  {
    if |h| >= 2 {
      assert h[0] in h && h[1] in h && h[0] != h[1];
    }
  }

  lemma SwingIsExact(h: seq<ScoreRecord>, maxVelocity: int)
    requires h != []
    ensures MaxScore(h) - MinScore(h) <= maxVelocity <==> forall a, b :: a in h && b in h ==> a.score - b.score <= maxVelocity
  {
  }

  /** Judging the whole window: each outcome, by what is in the table. */
  lemma JudgeIsExact(t: Table, wallet: string, latest: ScoreRecord, h: seq<ScoreRecord>, now: int, maxAge: int, maxVelocity: int, window: int)
    requires window >= 2 && latest in h && Descending(h)
    requires forall r :: r in h <==> InWindow(t, wallet, latest.epoch, window, r)
    ensures var r := Judge(latest, h, now, maxAge, maxVelocity);
      var company := HasCompany(t, wallet, latest, window);
      var recent := now - AsUnix(latest.computedAt) <= maxAge;
      var steady := Steady(t, wallet, latest.epoch, window, maxVelocity);
      && (r.Safe? <==> company && recent && steady)
      && (r == Rejected(InsufficientHistory) <==> !company)
      && (r == Rejected(StaleCert) <==> company && !recent)
      && (r == Rejected(VelocityExceeded) <==> company && recent && !steady)
  {
    hide InWindow, AsUnix, MinScore, MaxScore;
    TwoRecords(h, latest);
    SwingIsExact(h, maxVelocity);
    assert HasCompany(t, wallet, latest, window) <==> exists other :: other in h && other != latest;
    assert Steady(t, wallet, latest.epoch, window, maxVelocity) <==> forall a, b :: a in h && b in h ==> a.score - b.score <= maxVelocity;
  }

  /** What the guard reads: the agent's latest record and the whole of its window. */
  lemma WindowRead(repo: InMemoryScoreRepo, wallet: string, now: int, maxAge: int, maxVelocity: int, window: int) returns (h: seq<ScoreRecord>)
    requires repo.Valid() && 2 <= window <= 1000 && maxAge > 0 && maxVelocity >= 0
    requires repo.LatestScore(wallet).Some?
    ensures var latest := repo.LatestScore(wallet).value;
      && latest in h && Descending(h)
      && (forall r :: r in h <==> InWindow(repo.table, wallet, latest.epoch, window, r))
      && ComputeSafeScore(repo, wallet, now, maxAge, maxVelocity, window) == Ok(Judge(latest, h, now, maxAge, maxVelocity))
  {
    hide Judge, History, Holds, Matches, InMemoryScoreRepo.Bucket;
    var latest := repo.LatestScore(wallet).value;
    var lo := WindowStart(latest.epoch, window);
    WindowIsWhole(repo.Bucket(wallet), repo.table, wallet, lo, latest.epoch, window);
    h := repo.ScoreHistory(wallet, Some(lo), Some(latest.epoch), window).value;
    forall r ensures r in h <==> InWindow(repo.table, wallet, latest.epoch, window, r) {
      WindowIsRange(repo.table, wallet, latest.epoch, window, r);
    }
    assert InWindow(repo.table, wallet, latest.epoch, window, latest);
  }

  lemma EpochsAscend(t: Table, wallet: string, current: int, window: int, h: seq<ScoreRecord>)
    requires KeyedByEpoch(t) && Descending(h) && forall r :: r in h <==> InWindow(t, wallet, current, window, r)
    ensures var es := EpochsOf(Reverse(h));
      && (forall i, j :: 0 <= i < j < |es| ==> es[i] < es[j])
      && (forall e :: e in es <==> current - window < e <= current && (wallet, e) in t)
  {
    var es := EpochsOf(Reverse(h));
    forall e | current - window < e <= current && (wallet, e) in t ensures e in es {
      var r := t[(wallet, e)];
      assert InWindow(t, wallet, current, window, r) && r in h;
      var i :| 0 <= i < |h| && h[i] == r;
      assert es[|h| - 1 - i] == e;
    }
    forall e | e in es ensures current - window < e <= current && (wallet, e) in t {
      var i :| 0 <= i < |es| && es[i] == e;
      assert h[|h| - 1 - i] in h;
    }
  }

  /**
   The guard is exact. For windows of 2 to 1000 epochs the read is safe if and only if there is a
   latest record, a second record in its window, the latest is not too old, and no two records of
   the window differ by more than the allowed velocity. The score then lies between the reported
   minimum and maximum, and the reported epochs are those of the window that have a record.
   */
  lemma SafeExactlyWhen(repo: InMemoryScoreRepo, wallet: string, now: int, maxAge: int, maxVelocity: int, window: int)
    requires repo.Valid() && 2 <= window <= 1000 && maxAge > 0 && maxVelocity >= 0
    ensures ComputeSafeScore(repo, wallet, now, maxAge, maxVelocity, window).Ok?
    ensures var r := ComputeSafeScore(repo, wallet, now, maxAge, maxVelocity, window).value;
      r.Safe? <==>
        && repo.LatestScore(wallet).Some?
        && var latest := repo.LatestScore(wallet).value;
        && HasCompany(repo.table, wallet, latest, window)
        && now - AsUnix(latest.computedAt) <= maxAge
        && Steady(repo.table, wallet, latest.epoch, window, maxVelocity)
    ensures var r := ComputeSafeScore(repo, wallet, now, maxAge, maxVelocity, window).value;
      r.Safe? ==>
        var latest := repo.LatestScore(wallet).value;
        && r.score == latest.score && r.epoch == latest.epoch && r.alertTier == latest.alertTier
        && r.velocityMin <= r.score <= r.velocityMax <= r.velocityMin + maxVelocity
        && (forall i, j :: 0 <= i < j < |r.windowEpochs| ==> r.windowEpochs[i] < r.windowEpochs[j])
        && (forall e :: e in r.windowEpochs <==> latest.epoch - window < e <= latest.epoch && (wallet, e) in repo.table)
        && r.issuedAt == AsUnix(latest.computedAt)
        && (forall x :: InWindow(repo.table, wallet, latest.epoch, window, x) ==> r.velocityMin <= x.score <= r.velocityMax)
        && (exists x :: InWindow(repo.table, wallet, latest.epoch, window, x) && x.score == r.velocityMin)
        && (exists x :: InWindow(repo.table, wallet, latest.epoch, window, x) && x.score == r.velocityMax)
  {
    hide InWindow, AsUnix, MinScore, MaxScore, HasCompany, Steady, EpochsOf, Holds, Matches, WindowStart, History;
    var latest := repo.LatestScore(wallet);
    if latest.Some? {
      var h := WindowRead(repo, wallet, now, maxAge, maxVelocity, window);
      JudgeIsExact(repo.table, wallet, latest.value, h, now, maxAge, maxVelocity, window);
      EpochsAscend(repo.table, wallet, latest.value.epoch, window, h);
    }
  }

  /** Which reason a rejection gives, in the order the checks are made; and windows over 1000 epochs are refused. */
  lemma RejectionReasons(repo: InMemoryScoreRepo, wallet: string, now: int, maxAge: int, maxVelocity: int, window: int)
    requires repo.Valid() && maxAge > 0 && maxVelocity >= 0 && window >= 2
    ensures var r := ComputeSafeScore(repo, wallet, now, maxAge, maxVelocity, window);
      if repo.LatestScore(wallet).None? then r == Ok(Rejected(InsufficientHistory))
      else if window > 1000 then r == Err(ValueError)
      else
        var latest := repo.LatestScore(wallet).value;
        var company := HasCompany(repo.table, wallet, latest, window);
        var stale := now - AsUnix(latest.computedAt) > maxAge;
        && (r == Ok(Rejected(InsufficientHistory)) <==> !company)
        && (r == Ok(Rejected(StaleCert)) <==> company && stale)
        && (r == Ok(Rejected(VelocityExceeded)) <==>
             company && !stale && !Steady(repo.table, wallet, latest.epoch, window, maxVelocity))
  {
    hide InWindow, AsUnix, Judge, HasCompany, Steady, Matches, Holds, Filter, SortByEpoch;
    var latest := repo.LatestScore(wallet);
    if latest.Some? && window <= 1000 {
      var h := WindowRead(repo, wallet, now, maxAge, maxVelocity, window);
      JudgeIsExact(repo.table, wallet, latest.value, h, now, maxAge, maxVelocity, window);
    }
  }

  /** When the guard raises an error instead of answering: bad settings, or a window the repository refuses to read. */
  lemma RefusedExactlyWhen(repo: InMemoryScoreRepo, wallet: string, now: int, maxAge: int, maxVelocity: int, window: int)
    requires repo.Valid()
    ensures ComputeSafeScore(repo, wallet, now, maxAge, maxVelocity, window).Err? <==>
      window < 2 || maxAge <= 0 || maxVelocity < 0 || (window > 1000 && exists k :: k in repo.table && k.0 == wallet)
  {
    hide Matches, Holds, Filter, SortByEpoch, Judge;
    assert repo.LatestScore(wallet).None? <==> forall k :: k in repo.table ==> k.0 != wallet;
  }
}
